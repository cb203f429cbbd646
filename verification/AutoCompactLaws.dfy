/** L5 fits its window or fails, keeps every pinned group verbatim, and separates no call from its
    result. */
module AutoCompactLaws {
  import opened Results
  import opened HistoryItems
  import opened Interactions
  import opened InteractionLaws
  import opened CompressionLaws
  import opened AutoCompact

  // ----- the window

  /** Whatever the greedy loop accepts or rejects, what is rendered fits; selected groups stay. */
  lemma {:induction false} GreedyFits(env: Env, groups: seq<seq<Item>>, selected: set<nat>, i: nat, window: int,
                                      maxGroups: Option<nat>, omitted: nat, summaryItems: nat)
    requires i <= |groups| && Tokens(env, Render(env, groups, selected, omitted, summaryItems)) <= window
    ensures var result := GreedyAdd(env, groups, selected, i, window, maxGroups, omitted, summaryItems);
            && selected <= result && (forall k | k in result :: k in selected || k < i)
            && Tokens(env, Render(env, groups, result, omitted, summaryItems)) <= window
            && (maxGroups.Some? ==> |result| <= |selected| || |result| <= maxGroups.value)
    decreases i
  {
    hide Tokens, Render;
    if i > 0 {
      var more := selected + {i - 1};
      var next :=
        if i - 1 in selected || Full(selected, maxGroups)
           || Tokens(env, Render(env, groups, more, omitted, summaryItems)) > window then selected
        else more;
      GreedyFits(env, groups, next, i - 1, window, maxGroups, omitted, summaryItems);
    }
  }

  /** What was selected when group `k` came up: everything pinned, and the newer groups that were kept. */
  function Newer(pinned: set<nat>, result: set<nat>, k: nat): set<nat> {
    set j | j in result && (j in pinned || j > k)
  }

  predicate RoomFor(env: Env, groups: seq<seq<Item>>, selected: set<nat>, k: nat, window: int,
                    maxGroups: Option<nat>, omitted: nat, summaryItems: nat)
  {
    !Full(selected, maxGroups) && Tokens(env, Render(env, groups, selected + {k}, omitted, summaryItems)) <= window
  }

  /** Each group that is not pinned is kept exactly when it fits beside the newer ones. */
  ghost predicate NewestFirst(env: Env, groups: seq<seq<Item>>, pinned: set<nat>, result: set<nat>, count: nat,
                              window: int,
                              maxGroups: Option<nat>, omitted: nat, summaryItems: nat)
  {
    forall k: nat | k < count && k !in pinned ::
      k in result <==> RoomFor(env, groups, Newer(pinned, result, k), k, window, maxGroups, omitted, summaryItems)
  }

  lemma {:induction false} GreedyAt(env: Env, groups: seq<seq<Item>>, selected: set<nat>, i: nat, k: nat, window: int,
                                    maxGroups: Option<nat>, omitted: nat, summaryItems: nat)
    requires k < i <= |groups| && k !in selected
    requires Tokens(env, Render(env, groups, selected, omitted, summaryItems)) <= window
    ensures var result := GreedyAdd(env, groups, selected, i, window, maxGroups, omitted, summaryItems);
            k in result <==> RoomFor(env, groups, Newer(selected, result, k), k, window, maxGroups, omitted,
                                     summaryItems)
    decreases i
  {
    hide *;
    var result := GreedyAdd(env, groups, selected, i, window, maxGroups, omitted, summaryItems);
    var next := GreedyStep(env, groups, selected, i, window, maxGroups, omitted, summaryItems);
    GreedyFits(env, groups, next, i - 1, window, maxGroups, omitted, summaryItems);
    NewerOf(selected, next, result, k, i);
    if k < i - 1 { GreedyAt(env, groups, next, i - 1, k, window, maxGroups, omitted, summaryItems); }
  }

  lemma {:induction false} GreedyIsNewestFirst(env: Env, groups: seq<seq<Item>>, pinned: set<nat>, window: int,
                                               maxGroups: Option<nat>, omitted: nat, summaryItems: nat)
    requires Tokens(env, Render(env, groups, pinned, omitted, summaryItems)) <= window
    ensures NewestFirst(env, groups, pinned,
                        GreedyAdd(env, groups, pinned, |groups|, window, maxGroups, omitted, summaryItems),
                        |groups|, window, maxGroups, omitted, summaryItems)
  {
    hide GreedyAdd, Newer, RoomFor, Tokens, Render;
    forall k: nat | k < |groups| && k !in pinned
      ensures var result := GreedyAdd(env, groups, pinned, |groups|, window, maxGroups, omitted, summaryItems);
              k in result <==> RoomFor(env, groups, Newer(pinned, result, k), k, window, maxGroups, omitted,
                                       summaryItems)
    {
      GreedyAt(env, groups, pinned, |groups|, k, window, maxGroups, omitted, summaryItems);
    }
  }

  lemma {:induction false} GreedyStep(env: Env, groups: seq<seq<Item>>, selected: set<nat>, i: nat, window: int,
                                      maxGroups: Option<nat>, omitted: nat, summaryItems: nat)
    returns (next: set<nat>)
    requires 0 < i <= |groups| && Tokens(env, Render(env, groups, selected, omitted, summaryItems)) <= window
    ensures GreedyAdd(env, groups, selected, i, window, maxGroups, omitted, summaryItems)
         == GreedyAdd(env, groups, next, i - 1, window, maxGroups, omitted, summaryItems)
    ensures next == selected || next == selected + {i - 1}
    ensures i - 1 !in selected
            ==> (i - 1 in next <==> RoomFor(env, groups, selected, i - 1, window, maxGroups, omitted, summaryItems))
    ensures Tokens(env, Render(env, groups, next, omitted, summaryItems)) <= window
  {
    hide Tokens, Render;
    next := if i - 1 in selected || !RoomFor(env, groups, selected, i - 1, window, maxGroups, omitted, summaryItems)
            then selected else selected + {i - 1};
  }

  lemma {:induction false} NewerOf(selected: set<nat>, next: set<nat>, result: set<nat>, k: nat, i: nat)
    requires k < i && k !in selected && next <= result && selected <= next <= selected + {i - 1}
    requires forall j | j in result :: j in next || j < i - 1
    ensures Newer(selected, result, k) == if k == i - 1 then selected else Newer(next, result, k)
    ensures k == i - 1 ==> (k in result <==> k in next)
  {
  }

  /** Fitting returns at most the window, with every pinned group, and of the others exactly those
      that fit newest first. */
  lemma {:induction false} FitGroupsFits(env: Env, history: seq<Item>, window: int, active: Option<int>,
                                         maxGroups: Option<nat>, omitted: nat, summaryItems: nat)
    requires FitGroups(env, history, window, active, maxGroups, omitted, summaryItems).Ok?
    ensures Groups(history).Some?
    ensures Tokens(env, FitGroups(env, history, window, active, maxGroups, omitted, summaryItems).value) <= window
    ensures exists selected ::
              && PinnedGroups(Groups(history).value, active) <= selected
              && (forall k | k in selected :: k < |Groups(history).value|)
              && NewestFirst(env, Groups(history).value, PinnedGroups(Groups(history).value, active), selected,
                             |Groups(history).value|, window, maxGroups, omitted, summaryItems)
              && FitGroups(env, history, window, active, maxGroups, omitted, summaryItems).value
                 == Render(env, Groups(history).value, selected, omitted, summaryItems)
  {
    hide Groups, IsPinnedGroup, Tokens, Render, GreedyAdd, NewestFirst;
    var groups := Groups(history).value;
    GreedyIsNewestFirst(env, groups, PinnedGroups(groups, active), window, maxGroups, omitted, summaryItems);
    GreedyFits(env, groups, PinnedGroups(groups, active), |groups|, window, maxGroups, omitted, summaryItems);
  }

  /** L5 returns at most the window or the trigger, so with the default trigger at most the window. */
  lemma {:induction false} AutoCompactFits(env: Env, history: seq<Item>, window: int, trigger: int, active: Option<int>,
                                           allowSummary: bool, previousReadable: bool, attempt: Attempt)
    requires AutoCompacted(env, history, window, trigger, active, allowSummary, previousReadable, attempt).Ok?
    ensures var r := AutoCompacted(env, history, window, trigger, active, allowSummary, previousReadable,
                                   attempt).value;
            Tokens(env, r) <= window || (r == history && Tokens(env, r) <= trigger)
  {
    hide Groups, Tokens, FitGroups, OldGroups, RecentGroups, SelectFrom, PinnedGroups;
    var r := AutoCompacted(env, history, window, trigger, active, allowSummary, previousReadable, attempt).value;
    if r != history || Tokens(env, history) > trigger {
      if Fallback(env, history, window, active) == Ok(r) {
        FitGroupsFits(env, Working(history), window, active, Some(FALLBACK_KEEP_GROUPS),
                      PriorOmitted(history), PriorItems(history) + CountSummaries(history));
      } else {
        var groups := Groups(Working(history)).value;
        var recent := RecentGroups(groups, OldGroups(groups, PinnedGroups(groups, active)));
        FitGroupsFits(env, [SummaryMarker(attempt.text)] + SelectFrom(groups, recent, 0), window, active, None,
                      PriorOmitted(history) + attempt.omitted, PriorItems(history) + attempt.dropped);
      }
    }
  }

  // ----- calls and results

  function Masked(groups: seq<seq<Item>>, selected: set<nat>, i: nat): seq<seq<Item>>
    requires i <= |groups|
    decreases |groups| - i
  {
    if i == |groups| then [] else [if i in selected then groups[i] else []] + Masked(groups, selected, i + 1)
  }

  lemma {:induction false} MaskedFlat(groups: seq<seq<Item>>, selected: set<nat>, i: nat)
    requires i <= |groups|
    ensures Flatten(Masked(groups, selected, i)) == SelectFrom(groups, selected, i)
    ensures |Masked(groups, selected, i)| == |groups| - i
    ensures forall j | 0 <= j < |groups| - i ::
              Masked(groups, selected, i)[j] == if i + j in selected then groups[i + j] else []
    decreases |groups| - i
  {
    hide *;
    MaskedUnfolds(groups, selected, i);
    if i < |groups| {
      MaskedFlat(groups, selected, i + 1);
      var first, rest := if i in selected then groups[i] else [], Masked(groups, selected, i + 1);
      FlattenUnfold([first] + rest);
      assert ([first] + rest)[1..] == rest;
    }
  }

  lemma {:induction false} MaskedUnfolds(groups: seq<seq<Item>>, selected: set<nat>, i: nat)
    requires i <= |groups|
    ensures i == |groups| ==>
              Masked(groups, selected, i) == [] && SelectFrom(groups, selected, i) == [] && Flatten([]) == []
    ensures i < |groups| ==>
              var first := if i in selected then groups[i] else [];
              && Masked(groups, selected, i) == [first] + Masked(groups, selected, i + 1)
              && SelectFrom(groups, selected, i) == first + SelectFrom(groups, selected, i + 1)
  {
  }

  lemma {:induction false} RenderKeepsPairs(env: Env, history: seq<Item>, selected: set<nat>, omitted: nat,
                                            summaryItems: nat)
    requires Groups(history).Some?
    ensures Groups(Render(env, Groups(history).value, selected, omitted, summaryItems)).Some?
  {
    hide Groups, GoodGroups, Closed, Silent, CallSet;
    var groups := Groups(history).value;
    var masked := Masked(groups, selected, 0);
    GroupsAreInteractions(history);
    MaskedFlat(groups, selected, 0);
    assert forall i | 0 <= i < |groups| :: masked[i] == if 0 + i in selected then groups[0 + i] else [];
    assert Silent([]) by { NothingIsSilent(); }
    RewrittenGroupsAreClosed(groups, masked, {}, {});
    var r := Render(env, groups, selected, omitted, summaryItems);
    var kept := SelectFrom(groups, selected, 0);
    var tail := r[|kept|..];
    assert r == kept + tail;
    OmissionIsSilent(env, Lost(groups, selected, omitted), summaryItems);
    assert Silent(tail) by { NothingIsSilent(); }
    SilentIsClosed(tail, {} + CallSet(kept));
    ClosedConcat(kept, tail, {});
    AcceptedIsClosed(r);
  }

  lemma {:induction false} NothingIsSilent()
    ensures Silent([])
  {
  }

  lemma {:induction false} OmissionIsSilent(env: Env, lost: nat, summaryItems: nat)
    ensures Silent([OmissionMarker(env, lost, summaryItems)])
  {
    assert [OmissionMarker(env, lost, summaryItems)][1..] == [];
  }

  lemma {:induction false} SilentIsClosed(history: seq<Item>, seen: set<Id>)
    requires Silent(history)
    ensures Closed(history, seen)
  {
    SilentTrack(history, {}, seen);
    assert seen + {} == seen;
  }

  /** L5 returns only histories whose calls and results pair up. */
  lemma {:induction false} AutoCompactKeepsPairs(env: Env, history: seq<Item>, window: int, trigger: int,
                                                 active: Option<int>,
                                                 allowSummary: bool, previousReadable: bool, attempt: Attempt)
    requires Groups(history).Some?
    requires AutoCompacted(env, history, window, trigger, active, allowSummary, previousReadable, attempt).Ok?
    ensures Groups(AutoCompacted(env, history, window, trigger, active, allowSummary, previousReadable,
                                 attempt).value).Some?
  {
    hide Groups, Tokens, FitGroups, OldGroups, RecentGroups, SelectFrom, PinnedGroups;
    var r := AutoCompacted(env, history, window, trigger, active, allowSummary, previousReadable, attempt).value;
    if r != history {
      if Fallback(env, history, window, active) == Ok(r) {
        FitKeepsPairs(env, Working(history), window, active, Some(FALLBACK_KEEP_GROUPS),
                      PriorOmitted(history), PriorItems(history) + CountSummaries(history));
      } else {
        var groups := Groups(Working(history)).value;
        var recent := RecentGroups(groups, OldGroups(groups, PinnedGroups(groups, active)));
        FitKeepsPairs(env, [SummaryMarker(attempt.text)] + SelectFrom(groups, recent, 0), window, active, None,
                      PriorOmitted(history) + attempt.omitted, PriorItems(history) + attempt.dropped);
      }
    }
  }

  lemma {:induction false} FitKeepsPairs(env: Env, history: seq<Item>, window: int, active: Option<int>,
                                         maxGroups: Option<nat>, omitted: nat, summaryItems: nat)
    requires FitGroups(env, history, window, active, maxGroups, omitted, summaryItems).Ok?
    ensures Groups(FitGroups(env, history, window, active, maxGroups, omitted, summaryItems).value).Some?
  {
    hide Groups, Tokens, FitGroups, Render, PinnedGroups;
    FitGroupsFits(env, history, window, active, maxGroups, omitted, summaryItems);
    var selected :| FitGroups(env, history, window, active, maxGroups, omitted, summaryItems).value
                    == Render(env, Groups(history).value, selected, omitted, summaryItems);
    RenderKeepsPairs(env, history, selected, omitted, summaryItems);
  }

  /** An accepted history stays accepted without its summary and omission records, if those carry no calls. */
  lemma {:induction false} WorkingIsAccepted(history: seq<Item>)
    requires Groups(history).Some?
    requires forall i | 0 <= i < |history| && (IsSummary(history[i]) || history[i].omission) ::
               CallIds(history[i]) == [] && ResultIds(history[i]) == []
    ensures Groups(Working(history)).Some?
  {
    hide Groups, Track, IsSummary;
    AcceptedIsClosed(history);
    AcceptedIsClosed(Working(history));
    WorkingTracks(history, {}, {});
  }

  lemma {:induction false} WorkingTracks(history: seq<Item>, pending: set<Id>, seen: set<Id>)
    requires forall i | 0 <= i < |history| && (IsSummary(history[i]) || history[i].omission) ::
               CallIds(history[i]) == [] && ResultIds(history[i]) == []
    ensures Track(Working(history), pending, seen) == Track(history, pending, seen)
    ensures AllCalls(Working(history)) == AllCalls(history)
    decreases |history|
  {
    hide CallIds, ResultIds, IsSummary, TrackItem;
    if history != [] {
      var rest := history[1..];
      assert forall i | 0 <= i < |rest| :: rest[i] == history[i + 1];
      var kept := [history[0]] + Working(rest);
      assert kept[1..] == Working(rest);
      if IsSummary(history[0]) || history[0].omission {
        assert Working(history) == Working(rest);
        assert CallIds(history[0]) == [] && ResultIds(history[0]) == [];
        SilentItem(history[0], pending, seen);
        WorkingTracks(rest, pending, seen);
      } else {
        assert Working(history) == kept;
        match TrackItem(history[0], pending, seen)
        case None => WorkingTracks(rest, pending, seen);
        case Some((p, s)) => WorkingTracks(rest, p, s);
      }
    }
  }
}
