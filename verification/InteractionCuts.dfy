/** Where a history is cut into groups, stated for each position on its own. */
module InteractionCuts {
  import opened Results
  import opened Sequences
  import opened HistoryItems
  import opened Interactions
  import opened InteractionLaws
  import opened InteractionPairs

  /** A call without an id still waits for the item that continues it. */
  function SimpleOpen(history: seq<Item>): bool {
    history != []
    && var last, before := history[|history| - 1], SimpleOpen(history[..|history| - 1]);
       (last.role == "assistant" && last.toolName != "") || (before && !Continues(last, before))
  }

  /** Every identified call made so far has its result. */
  predicate Answered(history: seq<Item>) {
    CallSet(history) <= ResultSet(history)
  }

  predicate SummaryCloses(history: seq<Item>, i: nat)
    requires i <= |history|
  {
    i > 0 && IsSummary(history[i - 1]) && Answered(history[..i])
  }

  predicate TurnStarts(history: seq<Item>, i: nat)
    requires i < |history|
  {
    i > 0 && Answered(history[..i]) && !SimpleOpen(history[..i]) && Boundary(history[i], false)
  }

  /** Between two items there is a cut exactly behind a summary or before a new turn, and only where
      no call is left open. */
  predicate CutsAt(history: seq<Item>, i: nat)
    requires i < |history|
  {
    SummaryCloses(history, i) || TurnStarts(history, i)
  }

  function CutSet(history: seq<Item>, i: nat): set<nat>
    requires i < |history|
  {
    (if i == 0 then {} else CutSet(history, i - 1)) + if CutsAt(history, i) then {i} else {}
  }

  /** The positions at which groups end. */
  function Ends(groups: seq<seq<Item>>): set<nat> {
    if groups == [] then {} else Ends(groups[..|groups| - 1]) + {|Flatten(groups)|}
  }

  lemma {:induction false} EndsAppend(groups: seq<seq<Item>>, group: seq<Item>)
    ensures Ends(groups + [group]) == Ends(groups) + {|Flatten(groups)| + |group|}
    ensures Flatten(groups + [group]) == Flatten(groups) + group
  {
    assert (groups + [group])[..|groups|] == groups;
    FlattenConcat(groups, [group]);
    FlattenOne(group);
  }

  /** The scan's sets and flag, stated from the items alone. */
  ghost predicate Tallied(history: seq<Item>, s: Scan) {
    && ResultSet(history) <= CallSet(history)
    && s.pending == CallSet(history) - ResultSet(history)
    && s.seen == CallSet(history)
    && s.simpleCall == SimpleOpen(history)
  }

  /** The groups closed after the first items end at the cuts so far. */
  ghost predicate Placed(history: seq<Item>, i: nat, s: Scan)
    requires i <= |history|
  {
    && Flatten(s.groups) + s.current == history[..i]
    && (s.current == [] <==> i == 0 || SummaryCloses(history, i))
    && Ends(s.groups) == CutsBefore(history, i) + if SummaryCloses(history, i) then {i} else {}
  }

  function CutsBefore(history: seq<Item>, i: nat): set<nat>
    requires i <= |history|
  {
    if i == 0 then {} else CutSet(history, i - 1)
  }

  lemma {:induction false} IdsOneMore(history: seq<Item>, item: Item)
    ensures CallSet(history + [item]) == CallSet(history) + IdSet(CallIds(item))
    ensures ResultSet(history + [item]) == ResultSet(history) + IdSet(ResultIds(item))
  {
    CallsConcat(history, [item]);
    ResultsConcat(history, [item]);
    CallsUnfold([item]);
    ResultsUnfold([item]);
    assert [item][1..] == [] && CallIds(item) + [] == CallIds(item) && ResultIds(item) + [] == ResultIds(item);
    hide CallIds, ResultIds;
    IdSetConcat(AllCalls(history), CallIds(item));
    IdSetConcat(AllResults(history), ResultIds(item));
  }

  lemma {:induction false} PendingOneMore(calls: set<Id>, results: set<Id>, newCalls: set<Id>, newResults: set<Id>)
    requires results <= calls && newResults <= calls - results && newCalls !! calls
    ensures calls - results - newResults + newCalls == (calls + newCalls) - (results + newResults)
    ensures results + newResults <= calls + newCalls
  {
  }

  lemma {:induction false} AllowedSets(s: Scan, item: Item)
    requires Step(s, item).Some?
    ensures IdSet(ResultIds(item)) <= s.pending && IdSet(CallIds(item)) !! s.seen
    ensures Step(s, item).value.pending == s.pending - IdSet(ResultIds(item)) + IdSet(CallIds(item))
    ensures Step(s, item).value.seen == s.seen + IdSet(CallIds(item))
  {
    hide ResultIds, CallIds, IsSummary, Boundary, Continues;
  }

  function Pushed(s: Scan, closes: bool): seq<seq<Item>> { if closes then s.groups + [s.current] else s.groups }

  function Carried(s: Scan, closes: bool, item: Item): seq<Item> { (if closes then [] else s.current) + [item] }

  predicate Closes(s: Scan, item: Item) {
    !s.simpleCall && Boundary(item, false) && s.current != [] && s.pending == {}
  }

  /** The part of a step that cuts and collects. */
  lemma {:induction false} CutStep(s: Scan, item: Item)
    requires Step(s, item).Some?
    ensures var t := Step(s, item).value;
            && t.groups == Pushed(s, Closes(s, item))
               + (if IsSummary(item) && t.pending == {} then [Carried(s, Closes(s, item), item)] else [])
            && t.current == (if IsSummary(item) && t.pending == {} then [] else Carried(s, Closes(s, item), item))
            && t.simpleCall == ((item.role == "assistant" && item.toolName != "")
                                || (s.simpleCall && !Continues(item, s.simpleCall)))
  {
    hide ResultIds, CallIds, IsSummary, ResultsAllowed, CallsAllowed, IdSet;
    assert Pushed(s, Closes(s, item)) + [] == Pushed(s, Closes(s, item));
  }

  lemma {:induction false} TallyStep(history: seq<Item>, s: Scan, item: Item)
    requires Tallied(history, s) && Step(s, item).Some?
    ensures Tallied(history + [item], Step(s, item).value)
  {
    AllowedSets(s, item);
    CutStep(s, item);
    IdsOneMore(history, item);
    SimpleOneMore(history, item);
    hide Step, CallSet, ResultSet, ResultIds, CallIds, IdSet, IsSummary, Boundary, Continues, SimpleOpen;
    PendingOneMore(CallSet(history), ResultSet(history), IdSet(CallIds(item)), IdSet(ResultIds(item)));
  }

  lemma {:induction false} AnsweredMeansNonePending(history: seq<Item>, s: Scan)
    requires Tallied(history, s)
    ensures Answered(history) <==> s.pending == {}
    ensures s.simpleCall == SimpleOpen(history)
  {
    hide CallSet, ResultSet, SimpleOpen;
    if s.pending == {} {
      assert forall c | c in CallSet(history) :: c !in s.pending;
    }
  }

  /** Closing the current group, or not, records exactly the cut in front of the item. */
  lemma {:induction false} PushPlaces(history: seq<Item>, i: nat, s: Scan, closes: bool)
    requires i < |history| && Placed(history, i, s)
    requires closes <==> s.current != [] && TurnStarts(history, i)
    ensures Ends(Pushed(s, closes)) == CutSet(history, i)
    ensures Flatten(Pushed(s, closes)) + Carried(s, closes, history[i]) == history[..i + 1]
  {
    hide *;
    CutSetUnfolds(history, i);
    CutHere(history, i, s);
    PlacedParts(history, i, s);
    assert history[..i + 1] == history[..i] + [history[i]];
    EndsAppend(s.groups, s.current);
    PushedParts(s, closes, history[i]);
    if !closes { Reassociate(Flatten(s.groups), s.current, [history[i]]); }
  }

  lemma {:induction false} PushedParts(s: Scan, closes: bool, item: Item)
    ensures Pushed(s, closes) == if closes then s.groups + [s.current] else s.groups
    ensures Carried(s, closes, item) == if closes then [item] else s.current + [item]
  {
    assert [] + [item] == [item];
  }

  lemma {:induction false} PlacedParts(history: seq<Item>, i: nat, s: Scan)
    requires i <= |history| && Placed(history, i, s)
    ensures Flatten(s.groups) + s.current == history[..i] && |Flatten(s.groups)| + |s.current| == i
    ensures Ends(s.groups) == CutsBefore(history, i) + if SummaryCloses(history, i) then {i} else {}
  {
    hide Flatten, Ends, CutsBefore, SummaryCloses;
  }

  /** There is a cut in front of the item if a summary has just closed a group or the item closes one. */
  lemma {:induction false} CutHere(history: seq<Item>, i: nat, s: Scan)
    requires i < |history| && Placed(history, i, s)
    ensures CutsAt(history, i) <==> SummaryCloses(history, i) || (s.current != [] && TurnStarts(history, i))
  {
    hide Flatten, Ends, CutsBefore, Answered, Boundary, SimpleOpen;
  }

  lemma {:induction false} CutSetUnfolds(history: seq<Item>, i: nat)
    requires i < |history|
    ensures CutSet(history, i) == CutsBefore(history, i) + if CutsAt(history, i) then {i} else {}
  {
    hide CutsAt;
  }

  lemma {:induction false} StepCuts(history: seq<Item>, i: nat, s: Scan)
    requires i < |history| && Tallied(history[..i], s) && Placed(history, i, s) && Step(s, history[i]).Some?
    ensures Tallied(history[..i + 1], Step(s, history[i]).value)
    ensures Placed(history, i + 1, Step(s, history[i]).value)
  {
    hide *;
    var item, t := history[i], Step(s, history[i]).value;
    assert history[..i + 1] == history[..i] + [item];
    TallyStep(history[..i], s, item);
    CutStep(s, item);
    ClosesAtTurn(history, i, s);
    SummaryClosesNext(history, i, t);
    PlaceStep(history, i, s, t, Closes(s, item));
  }

  lemma {:induction false} ClosesAtTurn(history: seq<Item>, i: nat, s: Scan)
    requires i < |history| && Tallied(history[..i], s) && Placed(history, i, s)
    ensures Closes(s, history[i]) <==> s.current != [] && TurnStarts(history, i)
  {
    AnsweredMeansNonePending(history[..i], s);
    NothingBefore(history, i, s);
    hide Tallied, Placed, Boundary, SimpleOpen, Answered;
  }

  lemma {:induction false} SummaryClosesNext(history: seq<Item>, i: nat, t: Scan)
    requires i < |history| && Tallied(history[..i + 1], t)
    ensures IsSummary(history[i]) && t.pending == {} <==> SummaryCloses(history, i + 1)
  {
    AnsweredMeansNonePending(history[..i + 1], t);
    hide Tallied, IsSummary, Answered;
  }

  lemma {:induction false} PlaceStep(history: seq<Item>, i: nat, s: Scan, t: Scan, closes: bool)
    requires i < |history| && Placed(history, i, s)
    requires closes <==> s.current != [] && TurnStarts(history, i)
    requires t.groups == Pushed(s, closes) + if SummaryCloses(history, i + 1) then [Carried(s, closes, history[i])]
             else []
    requires t.current == if SummaryCloses(history, i + 1) then [] else Carried(s, closes, history[i])
    ensures Placed(history, i + 1, t)
  {
    hide *;
    PushPlaces(history, i, s, closes);
    EndsAppend(Pushed(s, closes), Carried(s, closes, history[i]));
    NeverEmpty(s, closes, history[i]);
    CutsBeforeNext(history, i);
    var pushed, carried := Pushed(s, closes), Carried(s, closes, history[i]);
    assert |Flatten(pushed)| + |carried| == i + 1;
    if SummaryCloses(history, i + 1) {
      assert Flatten(t.groups) + t.current == history[..i + 1];
      assert Ends(t.groups) == CutsBefore(history, i + 1) + {i + 1};
    } else {
      assert t.groups == pushed + [] == pushed && t.current == carried;
      assert Ends(t.groups) == CutsBefore(history, i + 1) + {};
    }
    IsPlaced(history, i + 1, t);
  }

  lemma {:induction false} CutsBeforeNext(history: seq<Item>, i: nat)
    requires i < |history|
    ensures CutsBefore(history, i + 1) == CutSet(history, i)
  {
    hide CutSet;
  }

  lemma {:induction false} IsPlaced(history: seq<Item>, i: nat, s: Scan)
    requires i <= |history| && Flatten(s.groups) + s.current == history[..i]
    requires s.current == [] <==> i == 0 || SummaryCloses(history, i)
    requires Ends(s.groups) == CutsBefore(history, i) + if SummaryCloses(history, i) then {i} else {}
    ensures Placed(history, i, s)
  {
    hide Flatten, Ends, CutsBefore, SummaryCloses;
  }

  lemma {:induction false} NeverEmpty(s: Scan, closes: bool, item: Item)
    ensures Carried(s, closes, item) != []
  {
  }

  lemma {:induction false} NothingBefore(history: seq<Item>, i: nat, s: Scan)
    requires i <= |history| && Placed(history, i, s)
    ensures i == 0 ==> s.current == []
  {
  }

  lemma {:induction false} SimpleOneMore(history: seq<Item>, item: Item)
    ensures SimpleOpen(history + [item])
         == ((item.role == "assistant" && item.toolName != "")
             || (SimpleOpen(history) && !Continues(item, SimpleOpen(history))))
  {
    hide Continues;
    assert (history + [item])[..|history|] == history;
  }

  lemma {:induction false} StartsUncut(history: seq<Item>)
    ensures Run(START, history[..0]) == Some(START)
    ensures Tallied(history[..0], START) && Placed(history, 0, START)
  {
    assert history[..0] == [] && CallSet([]) == {} && ResultSet([]) == {};
  }

  lemma {:induction false} PrefixCuts(history: seq<Item>, i: nat)
    requires i <= |history| && Run(START, history).Some?
    ensures Run(START, history[..i]).Some?
    ensures Tallied(history[..i], Run(START, history[..i]).value) && Placed(history, i, Run(START, history[..i]).value)
  {
    hide *;
    if i == 0 {
      StartsUncut(history);
    } else {
      RunPrefix(history, i);
      PrefixCuts(history, i - 1);
      assert history[..i] == history[..i - 1] + [history[i - 1]];
      RunOneMore(START, history[..i - 1], history[i - 1]);
      StepCuts(history, i - 1, Run(START, history[..i - 1]).value);
    }
  }

  lemma {:induction false} RunPrefix(history: seq<Item>, i: nat)
    requires i <= |history| && Run(START, history).Some?
    ensures Run(START, history[..i]).Some?
    decreases |history| - i
  {
    hide Step;
    if i == |history| {
      assert history[..i] == history;
    } else {
      RunPrefix(history, i + 1);
      assert history[..i + 1] == history[..i] + [history[i]];
      RunNeedsPrefix(START, history[..i], history[i]);
    }
  }

  lemma {:induction false} RunNeedsPrefix(s: Scan, history: seq<Item>, item: Item)
    requires Run(s, history + [item]).Some?
    ensures Run(s, history).Some?
    decreases |history|
  {
    hide Step;
    if history != [] {
      assert (history + [item])[1..] == history[1..] + [item];
      RunNeedsPrefix(Step(s, history[0]).value, history[1..], item);
    }
  }

  lemma {:induction false} CutSetMembers(history: seq<Item>, i: nat, j: nat)
    requires i < |history|
    ensures j in CutSet(history, i) <==> j <= i && CutsAt(history, j)
  {
    hide CutsAt;
    if i > 0 { CutSetMembers(history, i - 1, j); }
  }

  predicate CallsByName(item: Item) { item.role == "assistant" && item.toolName != "" }

  /** Nothing in the item could answer a call: it has no results and is neither a tool's nor the user's. */
  predicate AnswersNothing(item: Item) { ResultIds(item) == [] && item.role != "tool" && item.role != "user" }

  /** An assistant has named a tool in front of position `i`, and nothing since could have answered it. */
  predicate Waits(history: seq<Item>, i: nat)
    requires i <= |history|
  {
    exists k | 0 <= k < i :: CallsByName(history[k]) && forall j | k < j < i :: AnswersNothing(history[j])
  }

  /** A summary, or a user's item that carries no results. */
  predicate Opens(item: Item) { IsSummary(item) || (item.role == "user" && ResultIds(item) == []) }

  /** All identified calls so far are answered, and the position is behind a summary, or no named call waits
      and the next item opens something new. */
  predicate IsCut(history: seq<Item>, i: nat)
    requires i < |history|
  {
    i > 0 && Answered(history[..i]) && (IsSummary(history[i - 1]) || (!Waits(history, i) && Opens(history[i])))
  }

  lemma {:induction false} WaitsMore(history: seq<Item>, i: nat)
    requires i < |history|
    ensures Waits(history, i + 1) <==> CallsByName(history[i]) || (Waits(history, i) && AnswersNothing(history[i]))
  {
    hide CallsByName, AnswersNothing;
    if Waits(history, i + 1) && !CallsByName(history[i]) {
      var k :| 0 <= k < i + 1 && CallsByName(history[k]) && forall j | k < j < i + 1 :: AnswersNothing(history[j]);
      assert k < i;
    }
    if Waits(history, i) && AnswersNothing(history[i]) {
      var k :| 0 <= k < i && CallsByName(history[k]) && forall j | k < j < i :: AnswersNothing(history[j]);
      assert forall j | k < j < i + 1 :: AnswersNothing(history[j]);
    }
  }

  lemma {:induction false} WaitsIsOpen(history: seq<Item>, i: nat)
    requires i <= |history|
    ensures SimpleOpen(history[..i]) <==> Waits(history, i)
  {
    hide ResultIds, Waits, SimpleOpen;
    if i == 0 {
      NothingWaits(history);
    } else {
      WaitsIsOpen(history, i - 1);
      WaitsMore(history, i - 1);
      assert history[..i] == history[..i - 1] + [history[i - 1]];
      SimpleOneMore(history[..i - 1], history[i - 1]);
      ContinuesIs(history[i - 1]);
    }
  }

  lemma {:induction false} NothingWaits(history: seq<Item>)
    ensures !SimpleOpen(history[..0]) && !Waits(history, 0)
  {
  }

  lemma {:induction false} ContinuesIs(item: Item)
    ensures Continues(item, true) <==> !AnswersNothing(item)
    ensures Boundary(item, false) <==> Opens(item)
  {
    hide ResultIds, IsSummary;
    assert "user"[0] == 'u' && "tool"[0] == 't';
  }

  lemma {:induction false} CutsAreCuts(history: seq<Item>, i: nat)
    requires i < |history|
    ensures CutsAt(history, i) <==> IsCut(history, i)
  {
    WaitsIsOpen(history, i);
    ContinuesIs(history[i]);
    hide IsSummary, Answered, SimpleOpen, Waits, Boundary, Opens;
  }

  /** The groups of an accepted history end exactly at its cuts and at its end: no interaction is
      split, none that could be cut is left whole, and nothing else decides. */
  lemma {:induction false} GroupsEndExactlyAtCuts(history: seq<Item>, i: nat)
    requires Groups(history).Some? && i <= |history|
    ensures i in Ends(Groups(history).value) <==> i > 0 && (i == |history| || IsCut(history, i))
  {
    hide *;
    if i < |history| { CutsAreCuts(history, i); }
    var n := |history|;
    GroupsNeedRun(history);
    assert history[..n] == history;
    PrefixCuts(history, n);
    LastGroupEnds(history, Run(START, history).value);
    if n > 0 {
      CutSetMembers(history, n - 1, i);
      NoCutAtStart(history);
    }
  }

  lemma {:induction false} GroupsNeedRun(history: seq<Item>)
    requires Groups(history).Some?
    ensures Run(START, history).Some?
  {
    hide Run;
  }

  /** Closing the scan adds the end of the history, unless a summary has just closed there. */
  lemma {:induction false} LastGroupEnds(history: seq<Item>, s: Scan)
    requires Run(START, history) == Some(s) && Groups(history).Some? && Placed(history, |history|, s)
    ensures Ends(Groups(history).value) == CutsBefore(history, |history|) + if history == [] then {} else {|history|}
    ensures CutsBefore(history, |history|) == if history == [] then {} else CutSet(history, |history| - 1)
  {
    hide *;
    var n := |history|;
    LastCuts(history, s);
    PlacedParts(history, n, s);
    GroupsAreClosed(history, s);
    EndsAppend(s.groups, s.current);
  }

  lemma {:induction false} GroupsAreClosed(history: seq<Item>, s: Scan)
    requires Run(START, history) == Some(s) && Groups(history).Some?
    ensures Groups(history).value == if s.current != [] then s.groups + [s.current] else s.groups
  {
    hide Run;
  }

  lemma {:induction false} LastCuts(history: seq<Item>, s: Scan)
    requires Placed(history, |history|, s)
    ensures s.current == [] <==> history == [] || SummaryCloses(history, |history|)
    ensures history == [] ==> !SummaryCloses(history, 0)
    ensures CutsBefore(history, |history|) == if history == [] then {} else CutSet(history, |history| - 1)
  {
    hide Flatten, Ends, CutSet, IsSummary, Answered;
  }

  lemma {:induction false} NoCutAtStart(history: seq<Item>)
    requires history != []
    ensures !CutsAt(history, 0)
  {
  }
}
