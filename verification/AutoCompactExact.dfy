/** Exactly when the last stage returns, refuses or is cancelled, and what it returns, stated over the
    groups of the history. */
module AutoCompactExact {
  import opened Results
  import opened HistoryItems
  import opened Interactions
  import opened InteractionLaws
  import opened Compression
  import opened AutoCompact
  import opened AutoCompactLaws
  import opened PinnedGroupsSurvive
  import CompressionLaws

  // ----- which groups are pinned, and which are old

  predicate UserSpeaks(group: seq<Item>) { exists u | 0 <= u < |group| :: group[u].role == "user" }

  /** The first group in which the user speaks, the current turn, and groups with a state record or a summary. */
  predicate PinnedAt(groups: seq<seq<Item>>, active: Option<int>, i: nat)
    requires i < |groups|
  {
    || (UserSpeaks(groups[i]) && forall j | 0 <= j < i :: !UserSpeaks(groups[j]))
    || IsCurrentTurn(groups[i], active)
    || (exists u | 0 <= u < |groups[i]| :: IsRepairState(groups[i][u]))
    || (exists u | 0 <= u < |groups[i]| :: IsSummary(groups[i][u]))
  }

  lemma {:induction false} PinnedGroupsAre(groups: seq<seq<Item>>, active: Option<int>, i: nat)
    ensures i in PinnedGroups(groups, active) <==> i < |groups| && PinnedAt(groups, active, i)
  {
    FirstUserIs(groups);
    hide IsRepairState, IsSummary, IsCurrentTurn;
    assert forall j | 0 <= j < |groups| :: HasUser(groups[j]) == UserSpeaks(groups[j]);
    if i < |groups| && UserSpeaks(groups[i]) && forall j | 0 <= j < i :: !UserSpeaks(groups[j]) {
      FirstUserAt(groups, i);
    }
  }

  /** How many groups below `n` are not pinned. */
  function Unpinned(pinned: set<nat>, n: nat): nat {
    if n == 0 then 0 else Unpinned(pinned, n - 1) + if n - 1 in pinned then 0 else 1
  }

  /** The first half, at least one, of the unpinned groups in front of the last two. */
  predicate OldAt(count: nat, pinned: set<nat>, i: nat) {
    && i + 2 < count && i !in pinned
    && (Unpinned(pinned, i) == 0 || Unpinned(pinned, i) < Unpinned(pinned, count - 2) / 2)
  }

  lemma {:induction false} EligibleRank(n: nat, pinned: set<nat>, i: nat)
    ensures |EligibleBelow(n, pinned)| == Unpinned(pinned, n)
    ensures i < n && i !in pinned ==>
              Unpinned(pinned, i) < Unpinned(pinned, n) && EligibleBelow(n, pinned)[Unpinned(pinned, i)] == i
  {
    hide *;
    EligibleStep(n, pinned);
    if n > 0 { EligibleRank(n - 1, pinned, i); }
  }

  lemma {:induction false} EligibleStep(n: nat, pinned: set<nat>)
    ensures if n == 0 then EligibleBelow(n, pinned) == [] && Unpinned(pinned, n) == 0
            else
              && EligibleBelow(n, pinned) == EligibleBelow(n - 1, pinned) + (if n - 1 in pinned then [] else [n - 1])
              && Unpinned(pinned, n) == Unpinned(pinned, n - 1) + if n - 1 in pinned then 0 else 1
  {
  }

  lemma {:induction false} EligibleAscends(n: nat, pinned: set<nat>)
    ensures forall a, b | 0 <= a < b < |EligibleBelow(n, pinned)| ::
            EligibleBelow(n, pinned)[a] < EligibleBelow(n, pinned)[b]
  {
    if n > 0 {
      EligibleAscends(n - 1, pinned);
      var front := EligibleBelow(n - 1, pinned);
      assert forall a | 0 <= a < |front| :: front[a] in front;
    }
  }

  lemma {:induction false} OldGroupsAre(groups: seq<seq<Item>>, pinned: set<nat>, i: nat)
    ensures i in OldGroups(groups, pinned) <==> OldAt(|groups|, pinned, i)
  {
    var n := if |groups| >= 2 then |groups| - 2 else 0;
    EligibleRank(n, pinned, i);
    EligibleAscends(n, pinned);
    hide Unpinned;
    var eligible := EligibleBelow(n, pinned);
    var half := if |eligible| / 2 >= 1 then |eligible| / 2 else 1;
    var chosen := eligible[..if half <= |eligible| then half else |eligible|];
    if i < n && i !in pinned {
      var rank := Unpinned(pinned, i);
      assert eligible[rank] == i;
      if rank < |chosen| { assert chosen[rank] == i; }
      if i in chosen {
        var a :| 0 <= a < |chosen| && chosen[a] == i;
        assert eligible[a] == i;
        assert a == rank;
      }
    } else {
      assert i !in eligible;
      assert forall a | 0 <= a < |chosen| :: chosen[a] == eligible[a] && eligible[a] in eligible;
    }
  }

  // ----- the records taken out

  lemma {:induction false} WorkingConcat(a: seq<Item>, b: seq<Item>)
    ensures Working(a + b) == Working(a) + Working(b)
  {
    hide IsSummary;
    if a == [] {
      assert a + b == b;
    } else {
      assert (a + b)[1..] == a[1..] + b;
      WorkingConcat(a[1..], b);
    }
  }

  /** What the stage works on are the items that are neither summaries nor omission records, in order. */
  lemma {:induction false} WorkingIs(a: seq<Item>, item: Item, b: seq<Item>)
    ensures Working(a + [item] + b)
         == Working(a) + (if IsSummary(item) || item.omission then [] else [item]) + Working(b)
    ensures Working([]) == []
  {
    WorkingConcat(a + [item], b);
    WorkingConcat(a, [item]);
    assert [item][1..] == [];
  }

  predicate HasRecord(history: seq<Item>) { exists i | 0 <= i < |history| :: IsSummary(history[i]) }

  predicate OneRecord(history: seq<Item>) {
    exists i | 0 <= i < |history| ::
      IsSummary(history[i]) && forall j | 0 <= j < |history| && IsSummary(history[j]) :: j == i
  }

  lemma {:induction false} CountedRecords(history: seq<Item>)
    ensures CountSummaries(history) > 0 <==> HasRecord(history)
    ensures CountSummaries(history) == 1 <==> OneRecord(history)
  {
    hide IsSummary;
    if history != [] {
      var rest := history[1..];
      CountedRecords(rest);
      assert forall i | 0 < i < |history| :: history[i] == rest[i - 1];
      RecordsUnfold(history);
    }
  }

  lemma {:induction false} RecordsUnfold(history: seq<Item>)
    requires history != []
    ensures HasRecord(history) <==> IsSummary(history[0]) || HasRecord(history[1..])
    ensures OneRecord(history)
            <==> if IsSummary(history[0]) then !HasRecord(history[1..]) else OneRecord(history[1..])
  {
    hide *;
    var rest := history[1..];
    HasRecordIs(history);
    HasRecordIs(rest);
    assert forall i | 0 <= i < |rest| :: rest[i] == history[i + 1];
    assert forall i | 0 < i < |history| :: history[i] == rest[i - 1];
    if IsSummary(history[0]) {
      OnlyRecordAt(history, 0);
    } else {
      if OneRecord(history) {
        var i := TheRecord(history);
        OnlyRecordAt(rest, i - 1);
      }
      if OneRecord(rest) {
        var i := TheRecord(rest);
        OnlyRecordAt(history, i + 1);
      }
    }
  }

  lemma {:induction false} HasRecordIs(history: seq<Item>)
    ensures HasRecord(history) <==> exists i | 0 <= i < |history| :: IsSummary(history[i])
  {
    hide IsSummary;
  }

  lemma {:induction false} OnlyRecordAt(history: seq<Item>, i: nat)
    requires i < |history| && IsSummary(history[i])
    ensures OneRecord(history) <==> forall j | 0 <= j < |history| && IsSummary(history[j]) :: j == i
  {
    hide IsSummary;
  }

  lemma {:induction false} TheRecord(history: seq<Item>) returns (i: nat)
    requires OneRecord(history)
    ensures i < |history| && IsSummary(history[i])
    ensures forall j | 0 <= j < |history| && IsSummary(history[j]) :: j == i
  {
    hide IsSummary;
    i :| 0 <= i < |history| && IsSummary(history[i])
         && forall j | 0 <= j < |history| && IsSummary(history[j]) :: j == i;
  }

  // ----- fitting

  /** The pinned groups, in front of the record of everything else, are within the window. */
  predicate PinnedFit(env: Env, groups: seq<seq<Item>>, pinned: set<nat>, window: int, head: seq<Item>, lost: int,
                      items: nat)
  {
    0 <= lost && Tokens(env, head + SelectFrom(groups, pinned, 0) + Omission(env, lost, items)) <= window
  }

  lemma {:induction false} PinnedCount(groups: seq<seq<Item>>, active: Option<int>)
    ensures |PinnedGroups(groups, active)| <= |groups|
  {
    hide IsPinnedGroup;
    Subset(PinnedGroups(groups, active), Indices(|groups|));
  }

  lemma {:induction false} Subset(a: set<nat>, b: set<nat>)
    requires forall i | i in a :: i in b
    ensures |a| <= |b|
    decreases |a|
  {
    if a != {} {
      var x :| x in a;
      Subset(a - {x}, b - {x});
    }
  }

  lemma {:induction false} RenderIs(env: Env, groups: seq<seq<Item>>, selected: set<nat>, omitted: nat, items: nat)
    requires |selected| <= |groups|
    ensures Render(env, groups, selected, omitted, items)
         == SelectFrom(groups, selected, 0) + Omission(env, |groups| - |selected| + omitted, items)
  {
    hide SelectFrom, OmissionMarker;
  }

  /** Whole groups in order, among them the pinned ones, with the newest of the others that fit and no more
      than the cap asks for; then the record of how many are gone. */
  ghost predicate Trimmed(env: Env, groups: seq<seq<Item>>, active: Option<int>, window: int, cap: nat, omitted: nat,
                          items: nat, r: seq<Item>, kept: set<nat>)
  {
    && PinnedGroups(groups, active) <= kept && (forall k | k in kept :: k < |groups|) && |kept| <= |groups|
    && (|kept| <= |PinnedGroups(groups, active)| || |kept| <= cap)
    && NewestFirst(env, groups, PinnedGroups(groups, active), kept, |groups|, window, Some(cap), omitted, items)
    && r == SelectFrom(groups, kept, 0) + Omission(env, |groups| - |kept| + omitted, items)
    && Tokens(env, r) <= window
  }

  ghost predicate IsTrimmed(env: Env, groups: seq<seq<Item>>, active: Option<int>, window: int, cap: nat, omitted: nat,
                            items: nat, r: seq<Item>)
  {
    exists kept :: Trimmed(env, groups, active, window, cap, omitted, items, r, kept)
  }

  lemma {:induction false} FitsExactly(env: Env, history: seq<Item>, window: int, active: Option<int>, cap: nat,
                                       omitted: nat, items: nat)
    requires Groups(history).Some?
    ensures var groups := Groups(history).value;
            var pinned := PinnedGroups(groups, active);
            var r := FitGroups(env, history, window, active, Some(cap), omitted, items);
            && (r == Err(ProtectedOverBudget)
                <==> !PinnedFit(env, groups, pinned, window, [], |groups| - |pinned| + omitted, items))
            && (r.Err? ==> r == Err(ProtectedOverBudget))
            && (r.Ok? ==> IsTrimmed(env, groups, active, window, cap, omitted, items, r.value))
  {
    hide Groups, IsPinnedGroup, Tokens, Render, GreedyAdd, NewestFirst, PinnedGroups, SelectFrom, Omission;
    var groups := Groups(history).value;
    var pinned := PinnedGroups(groups, active);
    PinnedCount(groups, active);
    RenderIs(env, groups, pinned, omitted, items);
    assert [] + SelectFrom(groups, pinned, 0) == SelectFrom(groups, pinned, 0);
    if Tokens(env, Render(env, groups, pinned, omitted, items)) <= window {
      var kept := GreedyAdd(env, groups, pinned, |groups|, window, Some(cap), omitted, items);
      GreedyIsNewestFirst(env, groups, pinned, window, Some(cap), omitted, items);
      GreedyFits(env, groups, pinned, |groups|, window, Some(cap), omitted, items);
      PinnedInside(groups, active);
      Subset(kept, Indices(|groups|));
      RenderIs(env, groups, kept, omitted, items);
      assert Trimmed(env, groups, active, window, cap, omitted, items,
                     FitGroups(env, history, window, active, Some(cap), omitted, items).value, kept);
    }
  }

  lemma {:induction false} PinnedInside(groups: seq<seq<Item>>, active: Option<int>)
    ensures forall k | k in PinnedGroups(groups, active) :: k < |groups|
  {
    hide IsPinnedGroup;
  }

  lemma {:induction false} PriorConcat(a: seq<Item>, b: seq<Item>)
    ensures PriorOmitted(a + b) == PriorOmitted(a) + PriorOmitted(b)
    ensures PriorItems(a + b) == PriorItems(a) + PriorItems(b)
  {
    if a == [] {
      assert a + b == b;
    } else {
      assert (a + b)[1..] == a[1..] + b;
      PriorConcat(a[1..], b);
    }
  }

  /** The next rework of a history takes over exactly what this one recorded as gone, and drops the record. */
  lemma {:induction false} RecordIsTakenOver(env: Env, kept: seq<Item>, lost: nat, items: nat)
    ensures PriorOmitted(kept + Omission(env, lost, items)) == PriorOmitted(kept) + lost
    ensures PriorItems(kept + Omission(env, lost, items)) == PriorItems(kept) + items
    ensures Working(kept + Omission(env, lost, items)) == Working(kept)
  {
    var record := Omission(env, lost, items);
    PriorConcat(kept, record);
    WorkingConcat(kept, record);
    RecordReads(env, lost, items);
    hide Working, PriorOmitted, PriorItems, Omission;
    assert Working(kept) + [] == Working(kept);
  }

  lemma {:induction false} RecordReads(env: Env, lost: nat, items: nat)
    ensures PriorOmitted(Omission(env, lost, items)) == lost && PriorItems(Omission(env, lost, items)) == items
    ensures Working(Omission(env, lost, items)) == []
  {
    var record := Omission(env, lost, items);
    if record != [] {
      assert record[1..] == [] && record[0] == OmissionMarker(env, lost, items);
      assert PriorOmitted([]) == 0 && PriorItems([]) == 0 && Working([]) == [];
    }
    hide IsSummary;
  }

  // ----- fitting behind a summary

  /** The same choice among the kept groups, seen before and after they are grouped again. */
  lemma {:induction false} SameChoice(groups: seq<seq<Item>>, selected: set<nat>, i: nat, regrouped: seq<seq<Item>>,
                                      again: set<nat>, k: nat, active: Option<int>) returns (both: set<nat>)
    requires i <= |groups| && k <= |regrouped| && regrouped[k..] == KeptGroups(groups, selected, i)
    requires PinnedGroups(groups, active) <= selected
    requires (exists j | 0 <= j < i :: HasUser(groups[j])) <==> exists m | 0 <= m < k :: HasUser(regrouped[m])
    ensures forall j | j in both :: i <= j < |groups| && j in selected
    ensures SelectFrom(regrouped, again, k) == SelectFrom(groups, both, i)
    ensures |both| == |Beyond(again, k, |regrouped|)|
    ensures (forall j | j in PinnedGroups(regrouped, active) && k <= j :: j in again) ==>
              forall j | j in PinnedGroups(groups, active) && i <= j :: j in both
    ensures (forall j | j in again && k <= j :: j in PinnedGroups(regrouped, active)) ==>
              forall j | j in both :: j in PinnedGroups(groups, active)
    decreases |groups| - i
  {
    hide HasUser, IsPinnedGroup, KeptGroups, SelectFrom;
    if i == |groups| {
      both := {};
      NothingKept(groups, selected, {}, false);
      NothingSelected(groups, both);
      NothingSelected(regrouped, again);
      NoneBeyond(again, |regrouped|);
    } else if i !in selected {
      KeptUnfolds(groups, selected, i);
      UserStays(groups, active, i);
      both := SameChoice(groups, selected, i + 1, regrouped, again, k, active);
      SelectUnfolds(groups, both, i);
    } else {
      KeptUnfolds(groups, selected, i);
      assert regrouped[k] == regrouped[k..][0] == groups[i] && regrouped[k..][1..] == regrouped[k + 1..];
      PinnedAlike(groups, i, regrouped, k, active);
      var more := SameChoice(groups, selected, i + 1, regrouped, again, k + 1, active);
      both := if k in again then more + {i} else more;
      SelectUnfolds(groups, both, i);
      SelectUnfolds(regrouped, again, k);
      SelectIgnores(groups, both, more, i + 1);
      BeyondUnfolds(again, k, |regrouped|);
    }
  }

  function Beyond(again: set<nat>, k: nat, count: nat): set<nat> { set m | m in again && k <= m < count }

  lemma {:induction false} BeyondUnfolds(again: set<nat>, k: nat, count: nat)
    requires k < count
    ensures |Beyond(again, k, count)| == |Beyond(again, k + 1, count)| + if k in again then 1 else 0
  {
    assert Beyond(again, k, count) == Beyond(again, k + 1, count) + if k in again then {k} else {};
  }

  lemma {:induction false} NoneBeyond(again: set<nat>, count: nat)
    ensures Beyond(again, count, count) == {}
  {
  }

  lemma {:induction false} NothingSelected(groups: seq<seq<Item>>, selected: set<nat>)
    ensures SelectFrom(groups, selected, |groups|) == []
  {
  }

  /** A group that is not pinned is not the first in which the user speaks. */
  lemma {:induction false} UserStays(groups: seq<seq<Item>>, active: Option<int>, i: nat)
    requires i < |groups| && i !in PinnedGroups(groups, active)
    ensures (exists j | 0 <= j < i + 1 :: HasUser(groups[j])) <==> exists j | 0 <= j < i :: HasUser(groups[j])
  {
    hide HasUser;
    FirstUserIs(groups);
    if HasUser(groups[i]) && forall j | 0 <= j < i :: !HasUser(groups[j]) { FirstUserAt(groups, i); }
  }

  lemma {:induction false} PinnedAlike(groups: seq<seq<Item>>, i: nat, regrouped: seq<seq<Item>>, k: nat,
                                       active: Option<int>)
    requires i < |groups| && k < |regrouped| && groups[i] == regrouped[k]
    requires (exists j | 0 <= j < i :: HasUser(groups[j])) <==> exists m | 0 <= m < k :: HasUser(regrouped[m])
    ensures i in PinnedGroups(groups, active) <==> k in PinnedGroups(regrouped, active)
    ensures (exists j | 0 <= j < i + 1 :: HasUser(groups[j])) <==> exists m | 0 <= m < k + 1 :: HasUser(regrouped[m])
  {
    hide HasUser, HasRepairState, HasSummary;
    if i in PinnedGroups(groups, active) { PinnedInBoth(groups, i, regrouped, k, active); }
    if k in PinnedGroups(regrouped, active) { PinnedInBoth(regrouped, k, groups, i, active); }
    if exists j | 0 <= j < i + 1 :: HasUser(groups[j]) {
      var j :| 0 <= j < i + 1 && HasUser(groups[j]);
      if j == i { assert HasUser(regrouped[k]); }
    }
    if exists m | 0 <= m < k + 1 :: HasUser(regrouped[m]) {
      var m :| 0 <= m < k + 1 && HasUser(regrouped[m]);
      if m == k { assert HasUser(groups[i]); }
    }
  }

  lemma {:induction false} KeptCount(groups: seq<seq<Item>>, selected: set<nat>, i: nat)
    requires i <= |groups|
    ensures |KeptGroups(groups, selected, i)| == |Beyond(selected, i, |groups|)|
    decreases |groups| - i
  {
    hide KeptGroups;
    if i == |groups| {
      NothingKept(groups, selected, {}, false);
      NoneBeyond(selected, |groups|);
    } else {
      KeptUnfolds(groups, selected, i);
      BeyondUnfolds(selected, i, |groups|);
      KeptCount(groups, selected, i + 1);
    }
  }

  /** The new summary, then groups that were not summarised, among them the pinned ones, and the record of
      what else is gone. */
  ghost predicate Summarised(env: Env, groups: seq<seq<Item>>, active: Option<int>, window: int, text: string,
                             recent: set<nat>, omitted: nat, items: nat, r: seq<Item>, kept: set<nat>)
  {
    && PinnedGroups(groups, active) <= kept <= recent && |kept| <= |recent|
    && r == [SummaryMarker(text)] + SelectFrom(groups, kept, 0) + Omission(env, |recent| - |kept| + omitted, items)
    && Tokens(env, r) <= window
  }

  predicate Below(selected: set<nat>, n: nat) { forall k | k in selected :: k < n }

  lemma {:induction false} RenderedChoice(env: Env, history: seq<Item>, window: int, active: Option<int>, omitted: nat,
                                          items: nat) returns (kept: set<nat>)
    requires Groups(history).Some? && FitGroups(env, history, window, active, None, omitted, items).Ok?
    ensures PinnedGroups(Groups(history).value, active) <= kept
    ensures forall k | k in kept :: k < |Groups(history).value|
    ensures FitGroups(env, history, window, active, None, omitted, items).value
         == Render(env, Groups(history).value, kept, omitted, items)
    ensures Tokens(env, FitGroups(env, history, window, active, None, omitted, items).value) <= window
  {
    hide Groups, FitGroups, PinnedGroups, Render, NewestFirst, Tokens;
    FitGroupsFits(env, history, window, active, None, omitted, items);
    kept :| PinnedGroups(Groups(history).value, active) <= kept && Below(kept, |Groups(history).value|)
            && FitGroups(env, history, window, active, None, omitted, items).value
               == Render(env, Groups(history).value, kept, omitted, items);
    BelowIs(kept, |Groups(history).value|);
  }

  lemma {:induction false} BelowIs(selected: set<nat>, n: nat)
    ensures Below(selected, n) <==> forall k | k in selected :: k < n
  {
  }

  ghost predicate IsSummarised(env: Env, groups: seq<seq<Item>>, active: Option<int>, window: int, text: string,
                               recent: set<nat>, omitted: nat, items: nat, r: seq<Item>)
  {
    exists kept :: Summarised(env, groups, active, window, text, recent, omitted, items, r, kept)
  }

  lemma {:induction false} SummaryFitsExactly(env: Env, history: seq<Item>, window: int, active: Option<int>,
                                              text: string, recent: set<nat>, omitted: nat, items: nat)
    requires Groups(history).Some? && NoSummaries(history)
    requires PinnedGroups(Groups(history).value, active) <= recent
    requires Groups(history).value != [] ==> |Groups(history).value| - 1 in recent
    requires forall i | i in recent :: i < |Groups(history).value|
    ensures var groups := Groups(history).value;
            var pinned := PinnedGroups(groups, active);
            var r := FitGroups(env, [SummaryMarker(text)] + SelectFrom(groups, recent, 0), window, active, None,
                               omitted, items);
            && (r.Ok? <==> PinnedFit(env, groups, pinned, window, [SummaryMarker(text)],
                                     |recent| - |pinned| + omitted, items))
            && (r.Ok? ==> IsSummarised(env, groups, active, window, text, recent, omitted, items, r.value))
  {
    hide *;
    var groups, marker := Groups(history).value, SummaryMarker(text);
    var regrouped := [[marker]] + KeptGroups(groups, recent, 0);
    var input := [marker] + SelectFrom(groups, recent, 0);
    RegroupedAsBefore(history, recent, text);
    KeptCount(groups, recent, 0);
    AllBeyond(recent, |groups|);
    PinnedInside(regrouped, active);
    var pinnedAgain := PinnedGroups(regrouped, active);
    FitsOrNot(env, input, window, active, omitted, items);
    var pinned := ChoiceBehindMarker(groups, recent, text, pinnedAgain, active);
    SamePinned(pinned, PinnedGroups(groups, active), groups, active);
    RenderIs(env, regrouped, pinnedAgain, omitted, items) by { PinnedCount(regrouped, active); }
    Subset(PinnedGroups(groups, active), recent);
    FitsIs(env, groups, PinnedGroups(groups, active), window, [marker], |recent| - |pinned| + omitted, items);
    if FitGroups(env, input, window, active, None, omitted, items).Ok? {
      var r := FitGroups(env, input, window, active, None, omitted, items).value;
      var again := RenderedChoice(env, input, window, active, omitted, items);
      var kept := ChoiceBehindMarker(groups, recent, text, again, active);
      Subset(again, Indices(|regrouped|));
      RenderIs(env, regrouped, again, omitted, items);
      Subset(kept, recent);
      KeptBehindSummary(env, groups, active, window, text, recent, omitted, items, r, kept);
    }
  }

  lemma {:induction false} KeptBehindSummary(env: Env, groups: seq<seq<Item>>, active: Option<int>, window: int,
                                             text: string,
                                        recent: set<nat>, omitted: nat, items: nat, r: seq<Item>, kept: set<nat>)
    requires PinnedGroups(groups, active) <= kept <= recent && |kept| <= |recent|
    requires r == [SummaryMarker(text)] + SelectFrom(groups, kept, 0)
             + Omission(env, |recent| - |kept| + omitted, items)
    requires Tokens(env, r) <= window
    ensures IsSummarised(env, groups, active, window, text, recent, omitted, items, r)
  {
    assert Summarised(env, groups, active, window, text, recent, omitted, items, r, kept);
  }

  lemma {:induction false} AllBeyond(recent: set<nat>, count: nat)
    requires forall i | i in recent :: i < count
    ensures Beyond(recent, 0, count) == recent
  {
  }

  lemma {:induction false} SamePinned(a: set<nat>, pinned: set<nat>, groups: seq<seq<Item>>, active: Option<int>)
    requires a == pinned
    ensures |a| == |pinned|
  {
  }

  lemma {:induction false} FitsIs(env: Env, groups: seq<seq<Item>>, pinned: set<nat>, window: int, head: seq<Item>,
                                  lost: int, items: nat)
    requires 0 <= lost
    ensures PinnedFit(env, groups, pinned, window, head, lost, items)
            <==> Tokens(env, head + SelectFrom(groups, pinned, 0) + Omission(env, lost, items)) <= window
  {
  }

  lemma {:induction false} FitsOrNot(env: Env, history: seq<Item>, window: int, active: Option<int>, omitted: nat,
                                     items: nat)
    requires Groups(history).Some?
    ensures FitGroups(env, history, window, active, None, omitted, items).Ok?
            <==> Tokens(env, Render(env, Groups(history).value, PinnedGroups(Groups(history).value, active), omitted,
                                    items)) <= window
  {
    hide Groups, PinnedGroups, Tokens, Render, GreedyAdd;
  }

  /** A choice among the groups behind the marker that takes the marker, seen on the groups themselves. */
  lemma {:induction false} ChoiceBehindMarker(groups: seq<seq<Item>>, recent: set<nat>, text: string, again: set<nat>,
                                              active: Option<int>) returns (kept: set<nat>)
    requires PinnedGroups(groups, active) <= recent
    requires var regrouped := [[SummaryMarker(text)]] + KeptGroups(groups, recent, 0);
             PinnedGroups(regrouped, active) <= again && forall k | k in again :: k < |regrouped|
    ensures var regrouped := [[SummaryMarker(text)]] + KeptGroups(groups, recent, 0);
            && SelectFrom(regrouped, again, 0) == [SummaryMarker(text)] + SelectFrom(groups, kept, 0)
            && |again| == |kept| + 1
            && (again == PinnedGroups(regrouped, active) ==> kept == PinnedGroups(groups, active))
    ensures PinnedGroups(groups, active) <= kept <= recent && forall k | k in kept :: k < |groups|
  {
    hide *;
    var marker := SummaryMarker(text);
    var regrouped := [[marker]] + KeptGroups(groups, recent, 0);
    assert regrouped[1..] == KeptGroups(groups, recent, 0);
    MarkerGroup(text, KeptGroups(groups, recent, 0), active);
    kept := SameChoice(groups, recent, 0, regrouped, again, 1, active);
    PinnedInside(groups, active);
    SelectUnfolds(regrouped, again, 0);
    BeyondUnfolds(again, 0, |regrouped|);
    AllBeyond(again, |regrouped|);
  }

  lemma {:induction false} MarkerGroup(text: string, rest: seq<seq<Item>>, active: Option<int>)
    ensures var regrouped := [[SummaryMarker(text)]] + rest;
            0 in PinnedGroups(regrouped, active) && !HasUser(regrouped[0])
  {
    var regrouped := [[SummaryMarker(text)]] + rest;
    assert regrouped[0] == [SummaryMarker(text)];
    assert HasSummary(regrouped[0]) by { RunMarker(text); assert IsSummary([SummaryMarker(text)][0]); }
    MarkerIsPinned(regrouped, active);
    hide HasSummary, IsPinnedGroup;
  }

  // ----- the stage

  /** The stage has work to do: the history is over the trigger, or holds an earlier summary. */
  predicate Reworked(env: Env, history: seq<Item>, trigger: int) {
    Tokens(env, history) > trigger || HasRecord(history)
  }

  /** The history is small enough and its one summary is readable: it stays as it is. */
  predicate StaysAsIs(env: Env, history: seq<Item>, trigger: int, asks: bool) {
    asks && Tokens(env, history) <= trigger && OneRecord(history)
  }

  predicate AnyOld(groups: seq<seq<Item>>, pinned: set<nat>) {
    exists i | 0 <= i < |groups| :: OldAt(|groups|, pinned, i)
  }

  /** A summary is asked for: there is an old group to put into it, or an earlier summary to renew. */
  predicate Asked(env: Env, history: seq<Item>, trigger: int, groups: seq<seq<Item>>, pinned: set<nat>, asks: bool) {
    asks && !StaysAsIs(env, history, trigger, asks)
    && (HasRecord(history) || AnyOld(groups, pinned))
  }

  /** All groups but the old ones. */
  function Recent(groups: seq<seq<Item>>, pinned: set<nat>): set<nat> {
    set i: nat | i < |groups| && !OldAt(|groups|, pinned, i)
  }

  /** The summary is written and the pinned groups fit behind it. */
  predicate SummaryFits(env: Env, history: seq<Item>, window: int, groups: seq<seq<Item>>, pinned: set<nat>,
                        attempt: Attempt)
  {
    attempt.Summarized?
    && PinnedFit(env, groups, pinned, window, [SummaryMarker(attempt.text)],
                 |Recent(groups, pinned)| - |pinned| + PriorOmitted(history) + attempt.omitted,
                 PriorItems(history) + attempt.dropped)
  }

  /** Whole groups are dropped: no summary is asked for, or it failed, or it does not fit. */
  predicate Drops(env: Env, history: seq<Item>, window: int, trigger: int, groups: seq<seq<Item>>, pinned: set<nat>,
                  asks: bool, attempt: Attempt)
  {
    && !StaysAsIs(env, history, trigger, asks)
    && (Asked(env, history, trigger, groups, pinned, asks) ==>
          !attempt.Aborted? && !SummaryFits(env, history, window, groups, pinned, attempt))
  }

  /** The pinned groups fit beside the record of everything dropped. */
  predicate DroppingFits(env: Env, history: seq<Item>, window: int, groups: seq<seq<Item>>, pinned: set<nat>) {
    PinnedFit(env, groups, pinned, window, [], |groups| - |pinned| + PriorOmitted(history),
              PriorItems(history) + CountSummaries(history))
  }

  /** What the stage answers for a history it has to rework and whose items pair up. Over budget: exactly when
      the pinned groups alone are too large, or, where groups are dropped, with the record of what is gone.
      Cancelled: exactly when a summary was asked for and aborted. Otherwise it returns: the history as it
      is, or the summary and the groups behind it, or, above all when the summary failed, the pinned groups
      and the newest others that fit, eight in all. */
  ghost predicate Answers(env: Env, history: seq<Item>, window: int, trigger: int, active: Option<int>, asks: bool,
                          attempt: Attempt, groups: seq<seq<Item>>, r: Result<seq<Item>, StageError>)
  {
    var pinned := PinnedGroups(groups, active);
    var alone := Tokens(env, SelectFrom(groups, pinned, 0)) <= window;
    var asked := Asked(env, history, trigger, groups, pinned, asks);
    var drops := Drops(env, history, window, trigger, groups, pinned, asks, attempt);
    && (r == Err(ProtectedOverBudget) <==> !alone || (drops && !DroppingFits(env, history, window, groups, pinned)))
    && (r == Err(Cancelled) <==> alone && asked && attempt.Aborted?)
    && r != Err(PairMismatch)
    && (alone && StaysAsIs(env, history, trigger, asks) ==> r == Ok(history))
    && (alone && asked && SummaryFits(env, history, window, groups, pinned, attempt) ==>
          r.Ok? && IsSummarised(env, groups, active, window, attempt.text, Recent(groups, pinned),
                                PriorOmitted(history) + attempt.omitted, PriorItems(history)
                                  + attempt.dropped, r.value))
    && (alone && drops && DroppingFits(env, history, window, groups, pinned) ==>
          r.Ok? && IsTrimmed(env, groups, active, window, 8, PriorOmitted(history),
                             PriorItems(history) + CountSummaries(history), r.value))
  }

  ghost predicate AnswersL5(env: Env, history: seq<Item>, window: int, trigger: int, active: Option<int>, asks: bool,
                            attempt: Attempt, r: Result<seq<Item>, StageError>)
  {
    if !Reworked(env, history, trigger) then r == Ok(history)
    else if Groups(Working(history)).None? then r == Err(PairMismatch)
    else Answers(env, history, window, trigger, active, asks, attempt, Groups(Working(history)).value, r)
  }

  lemma {:induction false} RecentIs(groups: seq<seq<Item>>, active: Option<int>)
    ensures var pinned := PinnedGroups(groups, active);
            RecentGroups(groups, OldGroups(groups, pinned)) == Recent(groups, pinned)
  {
    hide PinnedGroups, OldAt, OldGroups;
    var pinned := PinnedGroups(groups, active);
    forall i: nat ensures i in OldGroups(groups, pinned) <==> OldAt(|groups|, pinned, i) {
      OldGroupsAre(groups, pinned, i);
    }
  }

  /** Something is selected exactly when some group is, for no group is empty. */
  lemma {:induction false} SelectsSomething(groups: seq<seq<Item>>, selected: set<nat>, i: nat)
    requires i <= |groups| && forall j | 0 <= j < |groups| :: groups[j] != []
    ensures SelectFrom(groups, selected, i) != [] <==> exists j | i <= j < |groups| :: j in selected
    decreases |groups| - i
  {
    hide SelectFrom;
    SelectUnfolds(groups, selected, i);
    if i < |groups| { SelectsSomething(groups, selected, i + 1); }
  }

  lemma {:induction false} OldIsSomething(history: seq<Item>, active: Option<int>)
    requires Groups(history).Some?
    ensures var groups := Groups(history).value;
            var pinned := PinnedGroups(groups, active);
            SelectFrom(groups, OldGroups(groups, pinned), 0) != []
            <==> AnyOld(groups, pinned)
  {
    hide *;
    var groups := Groups(history).value;
    var pinned := PinnedGroups(groups, active);
    GroupsAreInteractions(history);
    forall j | 0 <= j < |groups| ensures groups[j] != [] { CompressionLaws.GoodGroupAt(groups, {}, j); }
    SelectsSomething(groups, OldGroups(groups, pinned), 0);
    forall i: nat ensures i in OldGroups(groups, pinned) <==> OldAt(|groups|, pinned, i) {
      OldGroupsAre(groups, pinned, i);
    }
    AnyOldIs(groups, pinned);
  }

  lemma {:induction false} AnyOldIs(groups: seq<seq<Item>>, pinned: set<nat>)
    ensures AnyOld(groups, pinned) <==> exists i | 0 <= i < |groups| :: OldAt(|groups|, pinned, i)
  {
    hide OldAt;
  }

  lemma {:induction false} AnswersExactly(env: Env, history: seq<Item>, window: int, trigger: int, active: Option<int>,
                                          allowSummary: bool, previousReadable: bool, attempt: Attempt)
    ensures AnswersL5(env, history, window, trigger, active, allowSummary && previousReadable, attempt,
                      AutoCompacted(env, history, window, trigger, active, allowSummary, previousReadable, attempt))
  {
    CountedRecords(history);
    hide Groups, Tokens, FitGroups, OldGroups, RecentGroups, SelectFrom, PinnedGroups, Working, CountSummaries, Recent,
         OldAt, PriorOmitted, PriorItems, PinnedFit, IsTrimmed, IsSummarised, HasRecord, OneRecord, SummaryMarker;
    if Reworked(env, history, trigger) && Groups(Working(history)).Some? {
      var groups := Groups(Working(history)).value;
      var pinned := PinnedGroups(groups, active);
      var recent := Recent(groups, pinned);
      RecentIs(groups, active);
      RecentHasPinnedAndLast(groups, active);
      RecentInside(groups, pinned);
      OldIsSomething(Working(history), active);
      WorkingHasNoSummary(history);
      FitsExactly(env, Working(history), window, active, 8, PriorOmitted(history),
                  PriorItems(history) + CountSummaries(history));
      if attempt.Summarized? {
        SummaryFitsExactly(env, Working(history), window, active, attempt.text, recent,
                           PriorOmitted(history) + attempt.omitted, PriorItems(history) + attempt.dropped);
      }
    }
  }

  lemma {:induction false} RecentInside(groups: seq<seq<Item>>, pinned: set<nat>)
    ensures forall i | i in Recent(groups, pinned) :: i < |groups|
  {
    hide OldAt;
  }

  method L5AutoCompact(env: Env, history: seq<Item>, window: int, trigger: int, active: Option<int>,
                       allowSummary: bool, previousReadable: bool, attempt: Attempt)
    returns (r: Result<seq<Item>, StageError>)
    ensures r == AutoCompacted(env, history, window, trigger, active, allowSummary, previousReadable, attempt)
    ensures AnswersL5(env, history, window, trigger, active, allowSummary && previousReadable, attempt, r)
  {
    AnswersExactly(env, history, window, trigger, active, allowSummary, previousReadable, attempt);
    hide AnswersL5, Groups, FitGroups, PinnedGroups, Tokens, OldGroups, RecentGroups, SelectFrom;
    var tokensBefore := Tokens(env, history);
    var summaries := CountSummaries(history);
    if tokensBefore <= trigger && summaries == 0 { return Ok(history); }
    var priorOmitted, priorItems := PriorOmitted(history), PriorItems(history);
    var working := Working(history);
    var grouped := InteractionGroups(working);
    if grouped.None? { return Err(PairMismatch); }
    var groups := grouped.value;
    var pinned := PinnedGroups(groups, active);
    if Tokens(env, SelectFrom(groups, pinned, 0)) > window { return Err(ProtectedOverBudget); }
    var oldGroups := OldGroups(groups, pinned);
    var oldHistory := SelectFrom(groups, oldGroups, 0);
    var recentHistory := SelectFrom(groups, RecentGroups(groups, oldGroups), 0);
    if allowSummary && previousReadable {
      if tokensBefore <= trigger && summaries == 1 { return Ok(history); }
      if oldHistory != [] || summaries > 0 {
        if attempt.Aborted? { return Err(Cancelled); }
        if attempt.Summarized? {
          r := FitL5Groups(env, [SummaryMarker(attempt.text)] + recentHistory, window, active, None,
                           priorOmitted + attempt.omitted, priorItems + attempt.dropped);
          if r.Ok? { return; }
        }
      }
    }
    r := FitL5Groups(env, working, window, active, Some(FALLBACK_KEEP_GROUPS), priorOmitted, priorItems + summaries);
  }
}
