/** Where the items of a compressed history come from, and what the pipeline does to a small one. */
module PipelineItems {
  import opened Results
  import opened HistoryItems
  import opened Interactions
  import opened InteractionLaws
  import opened Compression
  import opened AutoCompact
  import opened AutoCompactLaws
  import opened AutoCompactExact
  import opened PinnedGroupsSurvive
  import opened StageRules
  import opened StageLaws
  import opened Pipeline
  import ToolTruncation

  /** The item is what became of `x`: a plain tool text is shortened, and may then be replaced by its stub;
      anything else keeps its content; tool items may be numbered. */
  ghost predicate Descends(env: Env, x: Item, item: Item) {
    && item == x.(content := item.content, refId := item.refId, compactRef := item.compactRef)
    && if IsPlain(x) then exists text ::
         ShortensText(env, x.content.text, x.toolName, text) && TextOrStub(env, x, text, item)
       else item.content == x.content && item.compactRef == x.compactRef
  }

  predicate TextOrStub(env: Env, x: Item, text: string, item: Item) {
    || (item.content == Text(text) && item.compactRef == x.compactRef)
    || (item.compactRef == item.refId > 0
        && item.content == Text(env.stubText(x.toolName, item.refId, env.countText(text), x.observationId)))
  }

  /** The item is none of the history: a marker for a snipped or collapsed turn, the new summary, the record
      of what was omitted, or the state record. */
  ghost predicate IsAdded(env: Env, summary: SummaryStep, record: Option<string>, item: Item) {
    || (exists i: nat, turn: seq<Item> :: [item] == SnipMarker(env, i, turn))
    || (exists i: nat, turn: seq<Item> :: [item] == CollapseMarker(env, i, turn))
    || (summary.allowed && summary.previousReadable && summary.attempt.Summarized?
        && item == SummaryMarker(summary.attempt.text))
    || (exists lost: nat, items: nat :: item == OmissionMarker(env, lost, items))
    || (record.Some? && item == StateRecord(record.value))
  }

  ghost predicate IsDescendant(env: Env, history: seq<Item>, item: Item) {
    exists k | 0 <= k < |history| :: Descends(env, history[k], item)
  }

  ghost predicate ComesFrom(env: Env, history: seq<Item>, summary: SummaryStep, record: Option<string>, item: Item) {
    IsDescendant(env, history, item) || IsAdded(env, summary, record, item)
  }

  ghost predicate AllComeFrom(env: Env, history: seq<Item>, summary: SummaryStep, record: Option<string>,
                              items: seq<Item>)
  {
    forall k | 0 <= k < |items| :: ComesFrom(env, history, summary, record, items[k])
  }

  // ----- members of flattened groups

  lemma {:induction false} InSomeGroup(groups: seq<seq<Item>>, item: Item) returns (g: nat)
    requires item in Flatten(groups)
    ensures g < |groups| && item in groups[g]
  {
    NothingFlat();
    hide Flatten;
    FlattenUnfold(groups);
    if item in groups[0] {
      g := 0;
    } else {
      g := InSomeGroup(groups[1..], item);
      g := g + 1;
    }
  }

  lemma {:induction false} NothingFlat()
    ensures Flatten([]) == []
  {
  }

  lemma {:induction false} InFlattened(groups: seq<seq<Item>>, g: nat, item: Item)
    requires g < |groups| && item in groups[g]
    ensures item in Flatten(groups)
  {
    FlattenUnfold(groups);
    hide Flatten;
    if g > 0 { InFlattened(groups[1..], g - 1, item); }
  }

  // ----- stage by stage

  lemma {:induction false} PickedIsOld(items: seq<Item>, chosen: set<nat>, n: nat, item: Item)
    requires n <= |items| && item in Picked(items, chosen, n)
    ensures item in items
  {
    hide Picked;
    PickedStep(items, chosen, n);
    if n > 0 && item in Picked(items, chosen, n - 1) { PickedIsOld(items, chosen, n - 1, item); }
  }

  lemma {:induction false} GuardedIsOld(env: Env, policy: TierPolicy, history: seq<Item>, guarded: seq<Item>,
                                        item: Item)
    requires Guards(env, policy, history, guarded) && item in guarded
    ensures item in history
  {
    hide Groups, GoodGroups, Picked, Staying, Flatten;
    var groups := Groups(history).value;
    GroupsAreInteractions(history);
    var kept :| GuardedGroups(env, policy, groups, kept) && guarded == Flatten(kept);
    var g := InSomeGroup(kept, item);
    PickedIsOld(groups[g], Staying(env, policy, groups[g]), |groups[g]|, item);
    InFlattened(groups, g, item);
  }

  lemma {:induction false} PickedHolds(items: seq<Item>, chosen: set<nat>, n: nat, u: nat)
    requires u < n <= |items| && u in chosen
    ensures items[u] in Picked(items, chosen, n)
  {
    hide Picked;
    PickedStep(items, chosen, n);
    if u < n - 1 { PickedHolds(items, chosen, n - 1, u); }
  }

  /** What is pinned survives L0, unless it answers a tool outside the allowed ones or reports a rejection; and
      whatever its group, so does every item that may stay. */
  lemma {:induction false} PinnedItemsSurvive(env: Env, policy: TierPolicy, history: seq<Item>, guarded: seq<Item>,
                                              item: Item)
    requires Guards(env, policy, history, guarded) && item in history
    requires !IsRefused(env, policy, item) && (IsKeptAnyway(env, policy, item) || !IsNoise(env, policy, item))
    ensures item in guarded
  {
    hide Groups, GoodGroups, Picked, Staying, Flatten, IsRefused, IsKeptAnyway, IsNoise;
    var groups := Groups(history).value;
    GroupsAreInteractions(history);
    var kept :| GuardedGroups(env, policy, groups, kept) && guarded == Flatten(kept);
    var g := InSomeGroup(groups, item);
    var u :| 0 <= u < |groups[g]| && groups[g][u] == item;
    StayingIs(env, policy, groups[g], u);
    PickedHolds(groups[g], Staying(env, policy, groups[g]), |groups[g]|, u);
    InFlattened(kept, g, item);
  }

  lemma {:induction false} ShortenedDescends(env: Env, before: Item, after: Item)
    requires ShortensItem(env, before, after)
    ensures Descends(env, before, after)
    ensures !IsPlain(before) ==> after == before
  {
    hide IsPlain, ShortensText;
    if IsPlain(before) { assert TextOrStub(env, before, after.content.text, after); }
  }

  /** An item of a rewritten list of turns is an old one or stands in a mark. */
  lemma {:induction false} RewrittenHolds(env: Env, turns: seq<seq<Item>>, eligible: set<nat>, marks: seq<seq<Item>>,
                                          threshold: int, cut: nat, result: seq<seq<Item>>, item: Item) returns (i: nat)
    requires TurnsCutAt(env, turns, eligible, marks, threshold, cut, result) && item in Flatten(result)
    ensures |marks| == |turns| && i < |turns| && (item in Flatten(turns) || item in marks[i])
  {
    hide Flatten, Tokens;
    i := InSomeGroup(result, item);
    if result[i] == turns[i] { InFlattened(turns, i, item); }
  }

  lemma {:induction false} SnippedHolds(env: Env, before: seq<Item>, threshold: int, tail: nat, active: Option<int>,
                                        after: seq<Item>, summary: SummaryStep, record: Option<string>, item: Item)
    requires Snips(env, before, threshold, tail, active, after) && item in after
    ensures item in before || IsAdded(env, summary, record, item)
  {
    hide Groups, GoodGroups, Flatten, Tokens, TurnsCutAt, SnipSet, CollapseMarker, SummaryMarker, OmissionMarker,
         StateRecord;
    if after != before {
      var turns := Groups(before).value;
      GroupsAreInteractions(before);
      var result :| TurnsSnipped(env, turns, threshold, tail, active, result) && after == Flatten(result);
      var cut :| TurnsCutAt(env, turns, SnipSet(env, turns, tail, active), SnipMarks(env, turns), threshold, cut,
                            result);
      var i := RewrittenHolds(env, turns, SnipSet(env, turns, tail, active), SnipMarks(env, turns), threshold, cut,
                              result, item);
      if item !in before { assert [item] == SnipMarker(env, i, turns[i]); }
    }
  }

  lemma {:induction false} CollapsedHolds(env: Env, before: seq<Item>, threshold: int, tail: nat, active: Option<int>,
                                          after: seq<Item>, summary: SummaryStep, record: Option<string>, item: Item)
    requires Collapses(env, before, threshold, tail, active, after) && item in after
    ensures item in before || IsAdded(env, summary, record, item)
  {
    hide Groups, GoodGroups, Flatten, Tokens, TurnsCutAt, CollapseSet, SnipMarker, SummaryMarker, OmissionMarker,
         StateRecord;
    if after != before {
      var turns := Groups(before).value;
      GroupsAreInteractions(before);
      var result :| TurnsCollapsed(env, turns, threshold, tail, active, result) && after == Flatten(result);
      var cut :| TurnsCutAt(env, turns, CollapseSet(env, turns, tail, active), CollapseMarks(env, turns), threshold,
                            cut,
                            result);
      var i := RewrittenHolds(env, turns, CollapseSet(env, turns, tail, active), CollapseMarks(env, turns), threshold,
                              cut, result, item);
      if item !in before { assert [item] == CollapseMarker(env, i, turns[i]); }
    }
  }

  lemma {:induction false} StubDescends(env: Env, x: Item, before: Item, numbered: Item, after: Item)
    requires ShortensItem(env, x, before)
    requires numbered == before.(refId := numbered.refId)
    requires after == numbered || (after == StubOf(env, numbered) && IsPlain(numbered) && numbered.refId > 0)
    ensures Descends(env, x, after)
  {
    PlainIgnoresNumber(before, numbered.refId);
    hide ShortensText, IsPlain;
    if IsPlain(x) { assert TextOrStub(env, x, before.content.text, after); }
  }

  lemma {:induction false} PlainIgnoresNumber(item: Item, n: nat)
    ensures IsPlain(item.(refId := n)) <==> IsPlain(item)
  {
  }

  lemma {:induction false} AddedIsSystem(env: Env, summary: SummaryStep, record: Option<string>, item: Item)
    requires IsAdded(env, summary, record, item)
    ensures item.role == "system"
  {
    assert forall i: nat, turn: seq<Item> ::
        SnipMarker(env, i, turn)[0].role == "system" && CollapseMarker(env, i, turn)[0].role == "system";
    assert item == [item][0];
  }

  /** The k-th item behind L3 is the numbered k-th item in front of it, or its stub. */
  lemma {:induction false} StubbedAt(env: Env, before: seq<Item>, threshold: int, tail: nat, active: Option<int>,
                                     after: seq<Item>, k: nat) returns (numbered: Item)
    requires Stubs(env, before, threshold, tail, active, after) && k < |after|
    ensures k < |before| && (numbered == before[k] || (IsCounted(before[k])
                                                       && numbered == before[k].(refId := numbered.refId)))
    ensures after[k] == numbered || (after[k] == StubOf(env, numbered) && IsPlain(numbered) && numbered.refId > 0)
  {
    hide Groups, Tokens, StubOf, IsPlain, MayStub, CountTools;
    if after == before {
      numbered := before[k];
    } else {
      var turns := Groups(before).value;
      var working :| Numbered(before, working) && ItemsStubbed(env, turns, threshold, tail, active, working, after);
      var cut :| ItemsCutAt(env, working, StubSet(env, turns, tail, active, working), StubMarks(env, working),
                            threshold,
                            cut, after);
      numbered := working[k];
      assert working[k] == NumberedAt(before, k);
      if after[k] != numbered { StubbedIsPlain(env, turns, tail, active, k, working[k]); }
    }
  }

  lemma {:induction false} StubbedHolds(env: Env, history: seq<Item>, before: seq<Item>, threshold: int, tail: nat,
                                        active: Option<int>, after: seq<Item>, summary: SummaryStep,
                                        record: Option<string>, k: nat)
    requires Stubs(env, before, threshold, tail, active, after) && k < |after|
    requires forall item | item in before :: IsShortened(env, history, item) || IsAdded(env, summary, record, item)
    ensures ComesFrom(env, history, summary, record, after[k])
  {
    hide Stubs, ShortensItem, IsAdded, Descends, StubOf, IsRepairState;
    var numbered := StubbedAt(env, before, threshold, tail, active, after, k);
    var item := before[k];
    assert item in before;
    if IsAdded(env, summary, record, item) {
      AddedIsSystem(env, summary, record, item);
      assert after[k] == item;
    } else {
      var j :| 0 <= j < |history| && ShortensItem(env, history[j], item);
      StubDescends(env, history[j], item, numbered, after[k]);
    }
  }

  ghost predicate IsShortened(env: Env, history: seq<Item>, item: Item) {
    exists k | 0 <= k < |history| :: ShortensItem(env, history[k], item)
  }

  lemma {:induction false} ShortenedHolds(env: Env, policy: TierPolicy, history: seq<Item>, guarded: seq<Item>,
                                          shortened: seq<Item>, item: Item)
    requires Guards(env, policy, history, guarded) && Shortens(env, guarded, shortened) && item in shortened
    ensures IsShortened(env, history, item)
  {
    hide Guards, ShortensItem;
    var k :| 0 <= k < |shortened| && shortened[k] == item;
    GuardedIsOld(env, policy, history, guarded, guarded[k]);
    var j :| 0 <= j < |history| && history[j] == guarded[k];
  }

  // ----- the last stage

  lemma {:induction false} SelectedIsOld(groups: seq<seq<Item>>, selected: set<nat>, i: nat, item: Item)
    requires i <= |groups| && item in SelectFrom(groups, selected, i)
    ensures item in Flatten(groups)
    decreases |groups| - i
  {
    hide SelectFrom, Flatten;
    SelectUnfolds(groups, selected, i);
    if i < |groups| && i in selected && item in groups[i] {
      InFlattened(groups, i, item);
    } else if i < |groups| {
      SelectedIsOld(groups, selected, i + 1, item);
    }
  }

  lemma {:induction false} WorkingIsOld(history: seq<Item>, item: Item)
    requires item in Working(history)
    ensures item in history
  {
    hide IsSummary;
    if item != history[0] { WorkingIsOld(history[1..], item); }
  }

  lemma {:induction false} FromGroups(history: seq<Item>, selected: set<nat>, item: Item)
    requires Groups(Working(history)).Some? && item in SelectFrom(Groups(Working(history)).value, selected, 0)
    ensures item in history
  {
    hide Groups, GoodGroups, SelectFrom, Working, Flatten;
    GroupsAreInteractions(Working(history));
    SelectedIsOld(Groups(Working(history)).value, selected, 0, item);
    WorkingIsOld(history, item);
  }

  lemma {:induction false} OmissionIsAdded(env: Env, summary: SummaryStep, record: Option<string>, lost: int,
                                           items: nat,
                                           item: Item)
    requires 0 <= lost && item in Omission(env, lost, items)
    ensures IsAdded(env, summary, record, item)
  {
    hide OmissionMarker, SnipMarker, CollapseMarker, SummaryMarker, StateRecord;
  }

  lemma {:induction false} AnsweredHolds(env: Env, history: seq<Item>, limits: Limits, active: Option<int>,
                                         summary: SummaryStep, record: Option<string>,
                                         fitted: Result<seq<Item>, StageError>, item: Item)
    requires LastStage(env, history, limits, active, summary, fitted) && fitted.Ok? && item in fitted.value
    ensures item in history || IsAdded(env, summary, record, item)
  {
    hide Groups, Working, PinnedGroups, SelectFrom, Tokens, HasRecord, OneRecord, AnyOld, PinnedFit, Recent,
         PriorOmitted, PriorItems, CountSummaries, IsTrimmed, IsSummarised, IsAdded;
    if fitted.value != history {
      var groups := Groups(Working(history)).value;
      var asks := summary.allowed && summary.previousReadable;
      var pinned := PinnedGroups(groups, active);
      if Drops(env, history, limits.window, limits.trigger, groups, pinned, asks, summary.attempt) {
        TrimmedHolds(env, history, limits.window, active, PriorOmitted(history),
                     PriorItems(history) + CountSummaries(history), fitted.value, summary, record, item);
      } else {
        SummarisedHolds(env, history, limits.window, active, Recent(groups, pinned),
                        PriorOmitted(history) + summary.attempt.omitted, PriorItems(history) + summary.attempt.dropped,
                        fitted.value, summary, record, item);
      }
    }
  }

  lemma {:induction false} TrimmedHolds(env: Env, history: seq<Item>, window: int, active: Option<int>, omitted: nat,
                                        items: nat, r: seq<Item>, summary: SummaryStep, record: Option<string>,
                                        item: Item)
    requires Groups(Working(history)).Some? && item in r
    requires IsTrimmed(env, Groups(Working(history)).value, active, window, 8, omitted, items, r)
    ensures item in history || IsAdded(env, summary, record, item)
  {
    hide Groups, Working, PinnedGroups, SelectFrom, Tokens, NewestFirst, IsAdded, Omission;
    var groups := Groups(Working(history)).value;
    var kept :| Trimmed(env, groups, active, window, 8, omitted, items, r, kept);
    if item in SelectFrom(groups, kept, 0) {
      FromGroups(history, kept, item);
    } else {
      OmissionIsAdded(env, summary, record, |groups| - |kept| + omitted, items, item);
    }
  }

  lemma {:induction false} SummarisedHolds(env: Env, history: seq<Item>, window: int, active: Option<int>,
                                           recent: set<nat>, omitted: nat, items: nat, r: seq<Item>,
                                           summary: SummaryStep, record: Option<string>, item: Item)
    requires Groups(Working(history)).Some? && item in r
    requires summary.allowed && summary.previousReadable && summary.attempt.Summarized?
    requires IsSummarised(env, Groups(Working(history)).value, active, window, summary.attempt.text, recent, omitted,
                          items, r)
    ensures item in history || IsAdded(env, summary, record, item)
  {
    hide Groups, Working, PinnedGroups, SelectFrom, Tokens, Omission, SummaryMarker, OmissionMarker, SnipMarker,
         CollapseMarker, StateRecord;
    var groups, text := Groups(Working(history)).value, summary.attempt.text;
    var kept :| Summarised(env, groups, active, window, text, recent, omitted, items, r, kept);
    if item in SelectFrom(groups, kept, 0) {
      FromGroups(history, kept, item);
    } else if item != SummaryMarker(text) {
      OmissionIsAdded(env, summary, record, |recent| - |kept| + omitted, items, item);
    }
  }

  // ----- the whole

  /** Every item the pipeline returns is an item of the history, with a plain tool text shortened and perhaps
      replaced by its stub, or one of the markers and records the stages add. */
  lemma {:induction false} NothingIsInvented(env: Env, policy: TierPolicy, history: seq<Item>, limits: Limits,
                                             active: Option<int>, summary: SummaryStep, record: Option<string>,
                                             r: Result<seq<Item>, StageError>)
    requires Passes(env, policy, history, limits, active, summary, record, r) && r.Ok?
    ensures AllComeFrom(env, history, summary, record, r.value)
  {
    hide Guards, Shortens, Snips, Stubs, Collapses, LastStage, ComesFrom, IsAdded;
    var between :| PassesBy(env, policy, history, limits, active, summary, record, between, r);
    var fitted :| LastStage(env, between.collapsed, limits, active, summary, fitted) && r == Recorded(fitted, record);
    forall k | 0 <= k < |r.value| ensures ComesFrom(env, history, summary, record, r.value[k]) {
      ItemComesFrom(env, policy, history, limits, active, summary, record, between, fitted, r.value[k]);
    }
  }

  lemma {:induction false} ItemComesFrom(env: Env, policy: TierPolicy, history: seq<Item>, limits: Limits,
                                         active: Option<int>, summary: SummaryStep, record: Option<string>,
                                         between: Between, fitted: Result<seq<Item>, StageError>, item: Item)
    requires Guards(env, policy, history, between.guarded)
    requires Shortens(env, between.guarded, between.shortened)
    requires Snips(env, between.shortened, limits.l2, limits.tail, active, between.snipped)
    requires Stubs(env, between.snipped, limits.l3, limits.tail, active, between.stubbed)
    requires Collapses(env, between.stubbed, limits.l4, limits.tail, active, between.collapsed)
    requires LastStage(env, between.collapsed, limits, active, summary, fitted) && fitted.Ok?
    requires item in Recorded(fitted, record).value
    ensures ComesFrom(env, history, summary, record, item)
  {
    hide Guards, Shortens, Snips, Stubs, Collapses, LastStage, IsDescendant, IsAdded, IsShortened;
    if record.Some? && item == StateRecord(record.value) {
      RecordIsAdded(env, summary, record, item);
    } else {
      AnsweredHolds(env, between.collapsed, limits, active, summary, record, fitted, item);
      if !IsAdded(env, summary, record, item) {
        CollapsedHolds(env, between.stubbed, limits.l4, limits.tail, active, between.collapsed, summary, record, item);
      }
      if !IsAdded(env, summary, record, item) {
        var k :| 0 <= k < |between.stubbed| && between.stubbed[k] == item;
        forall piece | piece in between.snipped
          ensures IsShortened(env, history, piece) || IsAdded(env, summary, record, piece)
        {
          SnippedHolds(env, between.shortened, limits.l2, limits.tail, active, between.snipped, summary, record, piece);
          if piece in between.shortened {
            ShortenedHolds(env, policy, history, between.guarded, between.shortened, piece);
          }
        }
        StubbedHolds(env, history, between.snipped, limits.l3, limits.tail, active, between.stubbed, summary, record,
                     k);
      }
    }
  }

  lemma {:induction false} RecordIsAdded(env: Env, summary: SummaryStep, record: Option<string>, item: Item)
    requires record.Some? && item == StateRecord(record.value)
    ensures IsAdded(env, summary, record, item)
  {
    hide OmissionMarker, SnipMarker, CollapseMarker, SummaryMarker, StateRecord;
  }

  /** The note fits beside the least body for every text of the tool. */
  ghost predicate NoteFits(env: Env, toolName: string) {
    forall text ::
      ToolTruncation.LEAST_BODY + env.countText(ToolTruncation.Suffix(env, text))
        <= ToolTruncation.TruncationLimit(toolName)
  }

  /** Every tool item of the result descends from one of the history; and every plain tool text that is no
      stub is within its tool's limit, whenever the note leaves room for it. */
  lemma {:induction false} ToolTextsAreShortened(env: Env, policy: TierPolicy, history: seq<Item>, limits: Limits,
                                                 active: Option<int>, summary: SummaryStep, record: Option<string>,
                                                 r: Result<seq<Item>, StageError>, k: nat)
    requires Passes(env, policy, history, limits, active, summary, record, r) && r.Ok?
    requires k < |r.value| && r.value[k].role == "tool"
    ensures IsDescendant(env, history, r.value[k])
    ensures ToolTruncation.Trims(env) && ToolTruncation.CountsAddUp(env) && NoteFits(env, r.value[k].toolName)
            && IsPlain(r.value[k]) && r.value[k].compactRef == 0 ==>
              env.countText(r.value[k].content.text) <= ToolTruncation.TruncationLimit(r.value[k].toolName)
  {
    hide Passes, Descends, IsAdded, ToolTruncation.Trims, ToolTruncation.CountsAddUp, ToolTruncation.TruncationLimit,
         NoteFits, IsPlain;
    var item := r.value[k];
    NothingIsInvented(env, policy, history, limits, active, summary, record, r);
    if IsAdded(env, summary, record, item) {
      AddedIsNoTool(env, summary, record, item);
    } else {
      var j :| 0 <= j < |history| && Descends(env, history[j], item);
      DescendantFits(env, history[j], item);
    }
  }

  lemma {:induction false} AddedIsNoTool(env: Env, summary: SummaryStep, record: Option<string>, item: Item)
    requires IsAdded(env, summary, record, item)
    ensures item.role != "tool"
  {
    AddedIsSystem(env, summary, record, item);
    assert |"system"| == 6 && |"tool"| == 4;
  }

  lemma {:induction false} DescendantFits(env: Env, x: Item, item: Item)
    requires Descends(env, x, item)
    ensures ToolTruncation.Trims(env) && ToolTruncation.CountsAddUp(env) && NoteFits(env, item.toolName)
            && IsPlain(item) && item.compactRef == 0 ==>
              env.countText(item.content.text) <= ToolTruncation.TruncationLimit(item.toolName)
  {
    hide ToolTruncation.Trims, ToolTruncation.CountsAddUp, ToolTruncation.TruncationLimit, ShortensText, IsRepairState;
    PlainIgnoresNumber(x, item.refId);
    if IsPlain(x) {
      var text :| ShortensText(env, x.content.text, x.toolName, text) && TextOrStub(env, x, text, item);
      if ToolTruncation.Trims(env) && ToolTruncation.CountsAddUp(env) && NoteFits(env, item.toolName) {
        ShortenedFits(env, x.content.text, x.toolName, text);
      }
    }
  }

  // ----- small histories

  predicate WithinAll(env: Env, history: seq<Item>, limits: Limits) {
    && Tokens(env, history) <= limits.l2 && Tokens(env, history) <= limits.l3 && Tokens(env, history) <= limits.l4
    && Tokens(env, history) <= limits.trigger && !HasRecord(history)
  }

  ghost predicate OnlyShortened(env: Env, policy: TierPolicy, history: seq<Item>, limits: Limits,
                                record: Option<string>, r: Result<seq<Item>, StageError>, guarded: seq<Item>,
                                shortened: seq<Item>)
  {
    && Guards(env, policy, history, guarded) && Shortens(env, guarded, shortened)
    && (WithinAll(env, shortened, limits) ==> r == Recorded(Ok(shortened), record))
  }

  /** A history that is within all thresholds once its plain tool texts are shortened, and holds no summary,
      comes out as just that: the items that stay, in order, with those texts shortened. */
  lemma {:induction false} SmallHistoriesAreOnlyShortened(env: Env, policy: TierPolicy, history: seq<Item>,
                                                          limits: Limits, active: Option<int>, summary: SummaryStep,
                                                          record: Option<string>, r: Result<seq<Item>, StageError>)
    requires Passes(env, policy, history, limits, active, summary, record, r)
    ensures exists guarded, shortened ::
              OnlyShortened(env, policy, history, limits, record, r, guarded, shortened)
  {
    hide Guards, Shortens, Tokens, HasRecord, Answers, Groups, Working, Recorded, TurnsSnipped, ItemsStubbed,
         TurnsCollapsed, Numbered;
    var between :| PassesBy(env, policy, history, limits, active, summary, record, between, r);
    var fitted :| LastStage(env, between.collapsed, limits, active, summary, fitted) && r == Recorded(fitted, record);
    assert WithinAll(env, between.shortened, limits) ==> fitted == Ok(between.shortened);
    assert OnlyShortened(env, policy, history, limits, record, r, between.guarded, between.shortened);
  }
}
