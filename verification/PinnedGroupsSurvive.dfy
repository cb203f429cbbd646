/** End to end: whatever path L5 takes, every pinned group of its input is in its output, verbatim
    and in order. The summarising path groups its history a second time; the groups it keeps come
    out of that second grouping unchanged. */
module PinnedGroupsSurvive {
  import opened Results
  import opened HistoryItems
  import opened Interactions
  import opened InteractionLaws
  import opened Compression
  import opened AutoCompact
  import opened AutoCompactLaws

  // ----- groups that a scan started afresh leaves in one piece

  /** Scanned on its own, the group is not split and leaves no call pending. */
  predicate Settled(group: seq<Item>) {
    && group != [] && Run(START, group).Some?
    && var end := Run(START, group).value;
       end.groups == [] && end.current == group && end.pending == {} && end.seen == CallSet(group)
  }

  predicate EndsOpen(group: seq<Item>) {
    Run(START, group).Some? && Run(START, group).value.simpleCall
  }

  predicate StartsGroup(group: seq<Item>) {
    group != [] && Boundary(group[0], false)
  }

  /** Every group is settled, all but the first start one, and all but the last end closed. */
  ghost predicate Regroupable(groups: seq<seq<Item>>) {
    && (forall i | 0 <= i < |groups| :: Settled(groups[i]))
    && (forall i | 1 <= i < |groups| :: StartsGroup(groups[i]))
    && (forall i | 0 <= i < |groups| - 1 :: !EndsOpen(groups[i]))
  }

  predicate NoSummaries(history: seq<Item>) {
    forall i | 0 <= i < |history| :: !IsSummary(history[i])
  }

  ghost predicate StableScan(s: Scan) {
    && Regroupable(s.groups) && (s.groups != [] ==> !EndsOpen(s.groups[|s.groups| - 1]) && StartsGroup(s.current))
    && CallSet(s.current) <= s.seen
    && Run(START, s.current) == Some(Scan([], s.current, s.pending, CallSet(s.current), s.simpleCall))
  }

  lemma {:induction false} CallSetOneMore(history: seq<Item>, item: Item)
    ensures CallSet(history + [item]) == CallSet(history) + IdSet(CallIds(item))
    ensures CallSet([item]) == IdSet(CallIds(item))
  {
    hide CallIds;
    CallSetConcat(history, [item]);
    assert [item][1..] == [] && CallIds(item) + AllCalls([]) == CallIds(item);
  }

  lemma {:induction false} StepStable(s: Scan, item: Item)
    requires StableScan(s) && Step(s, item).Some? && !IsSummary(item)
    ensures StableScan(Step(s, item).value)
  {
    if Boundary(item, s.simpleCall) && s.current != [] && s.pending == {} && !s.simpleCall {
      ClosingStepStable(s, item);
    } else {
      ContinuingStepStable(s, item);
    }
  }

  /** The item closes the current group and starts the next one. */
  lemma {:induction false} ClosingStepStable(s: Scan, item: Item)
    requires StableScan(s) && Step(s, item).Some? && !IsSummary(item)
    requires Boundary(item, s.simpleCall) && s.current != [] && s.pending == {} && !s.simpleCall
    ensures StableScan(Step(s, item).value)
  {
    hide ResultIds, CallIds, IsSummary, Continues, CallSet, IdSet, Regroupable, EndsOpen, Settled;
    CallSetOneMore(s.current, item);
    StableParts(s);
    SimplyEnds(s);
    OneMoreRegroupable(s.groups, s.current);
    assert [item][1..] == [];
    assert Run(START, [item]) == Step(START, item);
    assert {} + IdSet(CallIds(item)) == IdSet(CallIds(item));
    assert [] + [item] == [item];
    assert CallsAllowed(CallIds(item), {});
  }

  lemma {:induction false} SimplyEnds(s: Scan)
    requires StableScan(s) && !s.simpleCall
    ensures !EndsOpen(s.current)
  {
    hide Regroupable, CallSet;
  }

  lemma {:induction false} ContinuingStepStable(s: Scan, item: Item)
    requires StableScan(s) && Step(s, item).Some? && !IsSummary(item)
    requires !(Boundary(item, s.simpleCall) && s.current != [] && s.pending == {} && !s.simpleCall)
    ensures StableScan(Step(s, item).value)
  {
    hide ResultIds, CallIds, IsSummary, Continues, CallSet, IdSet, Regroupable;
    CallSetOneMore(s.current, item);
    RunOneMore(START, s.current, item);
    if s.current == [] { assert [] + [item] == [item]; }
  }

  lemma {:induction false} RunStable(s: Scan, history: seq<Item>)
    requires StableScan(s) && Run(s, history).Some? && NoSummaries(history)
    ensures StableScan(Run(s, history).value)
    decreases |history|
  {
    hide Step, StableScan, IsSummary;
    if history != [] {
      StepStable(s, history[0]);
      assert forall i | 0 <= i < |history[1..]| :: history[1..][i] == history[i + 1];
      RunStable(Step(s, history[0]).value, history[1..]);
    }
  }

  lemma {:induction false} GroupsAreRegroupable(history: seq<Item>)
    requires Groups(history).Some? && NoSummaries(history)
    ensures Regroupable(Groups(history).value)
  {
    hide Step, IsSummary, Run, NoSummaries, Close, Regroupable;
    StartIsStable();
    RunStable(START, history);
    StableCloses(Run(START, history).value);
  }

  lemma {:induction false} StartIsStable()
    ensures StableScan(START)
  {
    assert CallSet([]) == {};
  }

  lemma {:induction false} StableCloses(s: Scan)
    requires StableScan(s) && Close(s).Some?
    ensures Regroupable(Close(s).value)
  {
    hide *;
    CloseAppends(s);
    StableParts(s);
    if s.current != [] { OneMoreRegroupable(s.groups, s.current); }
  }

  lemma {:induction false} CloseAppends(s: Scan)
    requires Close(s).Some?
    ensures s.pending == {} && Close(s).value == if s.current != [] then s.groups + [s.current] else s.groups
  {
  }

  lemma {:induction false} StableParts(s: Scan)
    requires StableScan(s)
    ensures Regroupable(s.groups)
    ensures s.groups != [] ==> !EndsOpen(s.groups[|s.groups| - 1]) && StartsGroup(s.current)
    ensures s.current != [] && s.pending == {} ==> Settled(s.current)
  {
    hide Regroupable, EndsOpen, StartsGroup, CallSet, Run;
  }

  lemma {:induction false} OneMoreRegroupable(groups: seq<seq<Item>>, group: seq<Item>)
    requires Regroupable(groups) && Settled(group)
    requires groups != [] ==> !EndsOpen(groups[|groups| - 1]) && StartsGroup(group)
    ensures Regroupable(groups + [group])
  {
    hide Settled, EndsOpen, StartsGroup;
  }

  // ----- scanning a settled group behind others

  lemma {:induction false} GroupsOnlyGrow(s: Scan, history: seq<Item>)
    requires Run(s, history).Some?
    ensures |s.groups| <= |Run(s, history).value.groups|
    decreases |history|
  {
    hide ResultIds, CallIds, IsSummary, ResultsAllowed, CallsAllowed;
    if history != [] { GroupsOnlyGrow(Step(s, history[0]).value, history[1..]); }
  }

  /** The scan of items that close no group does not depend on the groups or calls before them. */
  lemma {:induction false} RunFramed(s: Scan, history: seq<Item>, before: seq<seq<Item>>, seen: set<Id>)
    requires s.groups == [] && Run(s, history).Some? && Run(s, history).value.groups == []
    requires CallSet(history) !! seen
    ensures Run(s.(groups := before, seen := s.seen + seen), history)
            == Some(Run(s, history).value.(groups := before, seen := Run(s, history).value.seen + seen))
    decreases |history|
  {
    hide ResultIds, CallIds, IsSummary, ResultsAllowed, Continues;
    if history != [] {
      var next := Step(s, history[0]).value;
      GroupsOnlyGrow(next, history[1..]);
      IdSetConcat(CallIds(history[0]), AllCalls(history[1..]));
      assert s.seen + seen + IdSet(CallIds(history[0])) == next.seen + seen;
      assert Step(s.(groups := before, seen := s.seen + seen), history[0])
          == Some(next.(groups := before, seen := next.seen + seen));
      RunFramed(next, history[1..], before, seen);
    }
  }

  /** A settled group that starts one closes the group before it and becomes current. */
  lemma {:induction false} RunSettled(groups: seq<seq<Item>>, current: seq<Item>, seen: set<Id>, group: seq<Item>)
    requires Settled(group) && CallSet(group) !! seen
    requires current == [] || StartsGroup(group)
    ensures Run(Scan(groups, current, {}, seen, false), group)
            == Some(Scan(if current == [] then groups else groups + [current], group, {}, CallSet(group) + seen,
                         EndsOpen(group)))
  {
    hide ResultIds, CallIds, IsSummary, ResultsAllowed, Continues;
    var item, rest := group[0], group[1..];
    var before := if current == [] then groups else groups + [current];
    var alone := Step(START, item).value;
    GroupsOnlyGrow(alone, rest);
    IdSetConcat(CallIds(item), AllCalls(rest));
    assert [] + [item] == [item];
    assert {} + IdSet(CallIds(item)) + seen == seen + IdSet(CallIds(item));
    assert Step(Scan(groups, current, {}, seen, false), item)
        == Some(alone.(groups := before, seen := alone.seen + seen));
    RunFramed(alone, rest, before, seen);
  }

  lemma {:induction false} RunConcat(s: Scan, a: seq<Item>, b: seq<Item>)
    ensures Run(s, a + b) == match Run(s, a) case None => None case Some(t) => Run(t, b)
    decreases |a|
  {
    hide Step;
    if a == [] {
      assert a + b == b;
    } else {
      assert (a + b)[1..] == a[1..] + b;
      match Step(s, a[0])
      case None =>
      case Some(t) => RunConcat(t, a[1..], b);
    }
  }

  /** The selected groups from index `i` on, as a list. */
  function KeptGroups(groups: seq<seq<Item>>, selected: set<nat>, i: nat): seq<seq<Item>>
    requires i <= |groups|
    decreases |groups| - i
  {
    if i == |groups| then [] else (if i in selected then [groups[i]] else []) + KeptGroups(groups, selected, i + 1)
  }

  lemma {:induction false} FreshCalls(groups: seq<seq<Item>>, seen: set<Id>)
    requires groups != [] && GoodGroups(groups, seen)
    ensures CallSet(groups[0]) !! seen
  {
    TrackDisjoint(groups[0], {}, seen);
  }

  lemma {:induction false} TrackDisjoint(history: seq<Item>, pending: set<Id>, seen: set<Id>)
    requires Track(history, pending, seen).Some?
    ensures CallSet(history) !! seen
    decreases |history|
  {
    hide ResultIds, CallIds, ResultsAllowed;
    if history != [] {
      var (p, s) := TrackItem(history[0], pending, seen).value;
      TrackDisjoint(history[1..], p, s);
      IdSetConcat(CallIds(history[0]), AllCalls(history[1..]));
      assert CallsAllowed(CallIds(history[0]), seen);
    }
  }

  /** Groups that can be scanned one after the other and come out as they are. */
  predicate Chain(groups: seq<seq<Item>>, seen: set<Id>, inside: bool) {
    if groups == [] then true
    else
      && Settled(groups[0]) && CallSet(groups[0]) !! seen
      && (inside ==> StartsGroup(groups[0]))
      && (groups[1..] != [] ==> !EndsOpen(groups[0]))
      && Chain(groups[1..], CallSet(groups[0]) + seen, true)
  }

  lemma {:induction false} RunChain(before: seq<seq<Item>>, current: seq<Item>, seen: set<Id>, groups: seq<seq<Item>>)
    requires groups != [] && Chain(groups, seen, current != [])
    ensures Run(Scan(before, current, {}, seen, false), Flatten(groups)).Some?
    ensures Close(Run(Scan(before, current, {}, seen, false), Flatten(groups)).value)
            == Some((if current == [] then before else before + [current]) + groups)
    decreases |groups|
  {
    hide Settled, StartsGroup, EndsOpen, CallSet, Run;
    var s, group, rest := Scan(before, current, {}, seen, false), groups[0], groups[1..];
    var done := if current == [] then before else before + [current];
    SettledNonempty(group);
    RunSettled(before, current, seen, group);
    RunConcat(s, group, Flatten(rest));
    var t := Scan(done, group, {}, CallSet(group) + seen, EndsOpen(group));
    if rest == [] {
      RunNothing(t);
      assert groups == [group];
    } else {
      RunChain(done, group, CallSet(group) + seen, rest);
      assert done + [group] + rest == done + groups;
    }
  }

  lemma {:induction false} SettledNonempty(group: seq<Item>)
    requires Settled(group)
    ensures group != []
  {
  }

  lemma {:induction false} RunNothing(s: Scan)
    ensures Run(s, []) == Some(s)
  {
  }

  lemma {:induction false} FlatKept(groups: seq<seq<Item>>, selected: set<nat>, i: nat)
    requires i <= |groups|
    ensures Flatten(KeptGroups(groups, selected, i)) == SelectFrom(groups, selected, i)
    decreases |groups| - i
  {
    hide *;
    SelectUnfolds(groups, selected, i);
    if i == |groups| {
      NothingKept(groups, selected, {}, false);
    } else {
      FlatKept(groups, selected, i + 1);
      KeptUnfolds(groups, selected, i);
      var rest := KeptGroups(groups, selected, i + 1);
      if i in selected {
        FlattenUnfold([groups[i]] + rest);
        assert ([groups[i]] + rest)[1..] == rest;
      }
    }
  }

  lemma {:induction false} SelectUnfolds(groups: seq<seq<Item>>, selected: set<nat>, i: nat)
    requires i <= |groups|
    ensures i == |groups| ==> SelectFrom(groups, selected, i) == [] && Flatten([]) == []
    ensures i < |groups| ==>
              var rest := SelectFrom(groups, selected, i + 1);
              SelectFrom(groups, selected, i) == if i in selected then groups[i] + rest else rest
  {
    if i < |groups| { assert [] + SelectFrom(groups, selected, i + 1) == SelectFrom(groups, selected, i + 1); }
  }

  lemma {:induction false} FewerSeenChain(groups: seq<seq<Item>>, seen: set<Id>, fewer: set<Id>, inside: bool)
    requires Chain(groups, seen, true) && fewer <= seen
    ensures Chain(groups, fewer, inside)
  {
    hide Settled, StartsGroup, EndsOpen, CallSet;
    if groups != [] {
      FewerSeenChain(groups[1..], CallSet(groups[0]) + seen, CallSet(groups[0]) + fewer, true);
    }
  }

  /** Regroupable groups form a chain, and so does any selection of them that has the last one. */
  lemma {:induction false} KeptIsChain(groups: seq<seq<Item>>, selected: set<nat>, i: nat, known: set<Id>)
    requires Regroupable(groups) && i <= |groups| && GoodGroups(groups[i..], known)
    requires |groups| > 0 && |groups| - 1 in selected
    ensures Chain(KeptGroups(groups, selected, i), known, i > 0)
    ensures i < |groups| ==> KeptGroups(groups, selected, i) != []
    decreases |groups| - i
  {
    hide *;
    if i == |groups| {
      NothingKept(groups, selected, known, i > 0);
    } else {
      var group, tail := groups[i], groups[i + 1..];
      assert groups[i..][0] == group && groups[i..][1..] == tail;
      FreshCalls(groups[i..], known);
      GoodRest(groups[i..], known);
      KeptIsChain(groups, selected, i + 1, known + CallSet(group));
      var rest := KeptGroups(groups, selected, i + 1);
      KeptUnfolds(groups, selected, i);
      RegroupableAt(groups, i);
      if i in selected {
        assert known + CallSet(group) == CallSet(group) + known;
        if i + 1 == |groups| { NothingKept(groups, selected, known, true); }
        ChainCons(group, rest, known, i > 0);
      } else {
        FewerSeenChain(rest, known + CallSet(group), known, i > 0);
      }
    }
  }

  lemma {:induction false} NothingKept(groups: seq<seq<Item>>, selected: set<nat>, known: set<Id>, inside: bool)
    ensures KeptGroups(groups, selected, |groups|) == [] && Chain([], known, inside)
  {
  }

  lemma {:induction false} KeptUnfolds(groups: seq<seq<Item>>, selected: set<nat>, i: nat)
    requires i < |groups|
    ensures var rest := KeptGroups(groups, selected, i + 1);
            KeptGroups(groups, selected, i) == if i in selected then [groups[i]] + rest else rest
  {
    assert [] + KeptGroups(groups, selected, i + 1) == KeptGroups(groups, selected, i + 1);
  }

  lemma {:induction false} GoodRest(groups: seq<seq<Item>>, known: set<Id>)
    requires groups != [] && GoodGroups(groups, known)
    ensures GoodGroups(groups[1..], known + CallSet(groups[0]))
  {
    hide Closed, CallSet;
  }

  lemma {:induction false} RegroupableAt(groups: seq<seq<Item>>, i: nat)
    requires Regroupable(groups) && i < |groups|
    ensures Settled(groups[i]) && (i > 0 ==> StartsGroup(groups[i])) && (i + 1 < |groups| ==> !EndsOpen(groups[i]))
  {
    hide Settled, StartsGroup, EndsOpen;
  }

  lemma {:induction false} ChainCons(group: seq<Item>, rest: seq<seq<Item>>, known: set<Id>, inside: bool)
    requires Settled(group) && CallSet(group) !! known && (inside ==> StartsGroup(group))
    requires (rest != [] ==> !EndsOpen(group)) && Chain(rest, CallSet(group) + known, true)
    ensures Chain([group] + rest, known, inside)
  {
    hide Settled, StartsGroup, EndsOpen, CallSet;
    assert ([group] + rest)[1..] == rest;
  }

  lemma {:induction false} RunMarker(text: string)
    ensures IsSummary(SummaryMarker(text))
    ensures Run(START, [SummaryMarker(text)]) == Some(Scan([[SummaryMarker(text)]], [], {}, {}, false))
  {
    var marker := SummaryMarker(text);
    assert marker.content.text[..|"[Earlier summary]"|] == "[Earlier summary]";
    assert [marker][1..] == [] && [] + [marker] == [marker];
    assert [] + [[marker]] == [[marker]];
    assert CallIds(marker) == [] && ResultIds(marker) == [];
    assert {} - IdSet([]) + IdSet([]) == {};
  }

  /** The second grouping, behind the new summary, keeps the groups as they were. */
  lemma {:induction false} RegroupedAsBefore(history: seq<Item>, selected: set<nat>, text: string)
    requires Groups(history).Some? && NoSummaries(history)
    requires Groups(history).value != [] ==> |Groups(history).value| - 1 in selected
    ensures Groups([SummaryMarker(text)] + SelectFrom(Groups(history).value, selected, 0))
            == Some([[SummaryMarker(text)]] + KeptGroups(Groups(history).value, selected, 0))
  {
    hide *;
    var groups, marker := Groups(history).value, SummaryMarker(text);
    RunMarker(text);
    RunConcat(START, [marker], SelectFrom(groups, selected, 0));
    var kept := KeptGroups(groups, selected, 0);
    FlatKept(groups, selected, 0);
    GroupsClose([marker] + SelectFrom(groups, selected, 0));
    if groups == [] {
      NothingKept(groups, selected, {}, false);
      AloneCloses([marker], SelectFrom(groups, selected, 0));
      assert [[marker]] + [] == [[marker]];
    } else {
      GroupsAreRegroupable(history);
      GroupsAreInteractions(history);
      assert groups[0..] == groups;
      KeptIsChain(groups, selected, 0, {});
      RunChain([[marker]], [], {}, kept);
    }
  }

  lemma {:induction false} GroupsClose(history: seq<Item>)
    ensures Groups(history) == match Run(START, history) case None => None case Some(s) => Close(s)
  {
    hide Run, Close;
  }

  lemma {:induction false} AloneCloses(group: seq<Item>, items: seq<Item>)
    requires items == Flatten([])
    ensures var s := Scan([group], [], {}, {}, false);
            items == [] && Run(s, items) == Some(s) && Close(s) == Some([group])
  {
  }

  // ----- two selections, one after the other

  lemma {:induction false} FirstUserIs(groups: seq<seq<Item>>)
    ensures forall m | 0 <= m < FirstUser(groups) && m < |groups| :: !HasUser(groups[m])
    ensures FirstUser(groups) < |groups| ==> HasUser(groups[FirstUser(groups)])
  {
    hide HasUser;
    if groups != [] && !HasUser(groups[0]) {
      FirstUserIs(groups[1..]);
      assert forall m | 0 < m < |groups| :: groups[m] == groups[1..][m - 1];
    }
  }

  lemma {:induction false} FirstUserAt(groups: seq<seq<Item>>, k: nat)
    requires k < |groups| && HasUser(groups[k]) && forall m | 0 <= m < k :: !HasUser(groups[m])
    ensures FirstUser(groups) == k
  {
    hide HasUser;
    FirstUserIs(groups);
  }

  lemma {:induction false} SelectIgnores(groups: seq<seq<Item>>, a: set<nat>, b: set<nat>, i: nat)
    requires i <= |groups| && forall j: nat | i <= j :: j in a <==> j in b
    ensures SelectFrom(groups, a, i) == SelectFrom(groups, b, i)
    decreases |groups| - i
  {
    if i < |groups| { SelectIgnores(groups, a, b, i + 1); }
  }

  lemma {:induction false} PinnedInBoth(groups: seq<seq<Item>>, i: nat, regrouped: seq<seq<Item>>, k: nat,
                                        active: Option<int>)
    requires i < |groups| && k < |regrouped| && groups[i] == regrouped[k]
    requires (forall j | 0 <= j < i :: !HasUser(groups[j])) ==> forall m | 0 <= m < k :: !HasUser(regrouped[m])
    requires IsPinnedGroup(groups, active, i)
    ensures IsPinnedGroup(regrouped, active, k)
  {
    hide HasUser, HasRepairState, HasSummary;
    FirstUserIs(groups);
    if i == FirstUser(groups) { FirstUserAt(regrouped, k); }
  }

  lemma {:induction false} ComposeSelections(groups: seq<seq<Item>>, selected: set<nat>, i: nat,
                                             regrouped: seq<seq<Item>>, again: set<nat>, k: nat, active: Option<int>)
    returns (both: set<nat>)
    requires i <= |groups| && k <= |regrouped| && regrouped[k..] == KeptGroups(groups, selected, i)
    requires PinnedGroups(groups, active) <= selected && PinnedGroups(regrouped, active) <= again
    requires (forall j | 0 <= j < i :: !HasUser(groups[j])) ==> forall m | 0 <= m < k :: !HasUser(regrouped[m])
    ensures forall j | j in both :: i <= j < |groups|
    ensures SelectFrom(regrouped, again, k) == SelectFrom(groups, both, i)
    ensures forall j | j in PinnedGroups(groups, active) && i <= j :: j in both
    decreases |groups| - i
  {
    hide HasUser, IsPinnedGroup;
    if i == |groups| {
      both := {};
    } else if i !in selected {
      assert [] + KeptGroups(groups, selected, i + 1) == regrouped[k..];
      both := ComposeSelections(groups, selected, i + 1, regrouped, again, k, active);
      assert [] + SelectFrom(groups, both, i + 1) == SelectFrom(groups, both, i + 1);
    } else {
      assert regrouped[k..][0] == groups[i] && regrouped[k..][1..] == regrouped[k + 1..];
      assert regrouped[k + 1..] == KeptGroups(groups, selected, i + 1);
      var more := ComposeSelections(groups, selected, i + 1, regrouped, again, k + 1, active);
      both := if k in again then more + {i} else more;
      SelectIgnores(groups, both, more, i + 1);
      if i in PinnedGroups(groups, active) {
        PinnedInBoth(groups, i, regrouped, k, active);
      }
    }
  }

  // ----- the stage as a whole

  function Omission(env: Env, lost: nat, items: nat): seq<Item> {
    if lost > 0 || items > 0 then [OmissionMarker(env, lost, items)] else []
  }

  /** The history is the given head, then whole groups in their order, among them every pinned one, and
      then nothing but the marker that says how much was left out. */
  ghost predicate KeepsPinned(env: Env, groups: seq<seq<Item>>, active: Option<int>, history: seq<Item>,
                              head: seq<Item>, items: nat)
  {
    exists kept: set<nat>, lost: nat :: Framed(env, groups, active, history, head, items, kept, lost)
  }

  ghost predicate Framed(env: Env, groups: seq<seq<Item>>, active: Option<int>, history: seq<Item>,
                         head: seq<Item>, items: nat, kept: set<nat>, lost: nat)
  {
    && PinnedGroups(groups, active) <= kept
    && history == head + SelectFrom(groups, kept, 0) + Omission(env, lost, items)
  }

  lemma {:induction false} WorkingHasNoSummary(history: seq<Item>)
    ensures NoSummaries(Working(history))
  {
    hide IsSummary;
    if history != [] { WorkingHasNoSummary(history[1..]); }
  }

  lemma {:induction false} FallbackKeepsPinned(env: Env, history: seq<Item>, window: int, active: Option<int>)
    requires Fallback(env, history, window, active).Ok?
    ensures Groups(Working(history)).Some?
    ensures KeepsPinned(env, Groups(Working(history)).value, active, Fallback(env, history, window, active).value,
                        [], PriorItems(history) + CountSummaries(history))
  {
    hide *;
    var omitted, items := PriorOmitted(history), PriorItems(history) + CountSummaries(history);
    FallbackIsFit(env, history, window, active);
    FitGroupsFits(env, Working(history), window, active, Some(FALLBACK_KEEP_GROUPS), omitted, items);
    var groups, r := Groups(Working(history)).value, Fallback(env, history, window, active).value;
    var kept :| PinnedGroups(groups, active) <= kept && r == Render(env, groups, kept, omitted, items);
    assert [] + SelectFrom(groups, kept, 0) == SelectFrom(groups, kept, 0);
    RenderIsFramed(env, groups, active, kept, omitted, items, [], groups, kept);
  }

  lemma {:induction false} FallbackIsFit(env: Env, history: seq<Item>, window: int, active: Option<int>)
    ensures Fallback(env, history, window, active)
         == FitGroups(env, Working(history), window, active, Some(FALLBACK_KEEP_GROUPS),
                      PriorOmitted(history), PriorItems(history) + CountSummaries(history))
  {
    hide FitGroups, Working, PriorOmitted, PriorItems, CountSummaries;
  }

  lemma {:induction false} RenderIsFramed(env: Env, rendered: seq<seq<Item>>, active: Option<int>, again: set<nat>,
                                          omitted: nat, items: nat,
                                          head: seq<Item>, groups: seq<seq<Item>>, kept: set<nat>)
    requires PinnedGroups(groups, active) <= kept
    requires SelectFrom(rendered, again, 0) == head + SelectFrom(groups, kept, 0)
    ensures KeepsPinned(env, groups, active, Render(env, rendered, again, omitted, items), head, items)
  {
    hide PinnedGroups, SelectFrom, OmissionMarker;
    var lost := Lost(rendered, again, omitted);
    assert Framed(env, groups, active, Render(env, rendered, again, omitted, items), head, items, kept, lost);
  }

  lemma {:induction false} SummaryKeepsPinned(env: Env, history: seq<Item>, window: int, active: Option<int>,
                                              text: string, omitted: nat, items: nat)
    requires Groups(history).Some? && NoSummaries(history)
    requires var groups := Groups(history).value;
             var recent := RecentGroups(groups, OldGroups(groups, PinnedGroups(groups, active)));
             FitGroups(env, [SummaryMarker(text)] + SelectFrom(groups, recent, 0), window, active, None, omitted,
                       items).Ok?
    ensures var groups := Groups(history).value;
            var recent := RecentGroups(groups, OldGroups(groups, PinnedGroups(groups, active)));
            KeepsPinned(env, groups, active,
              FitGroups(env, [SummaryMarker(text)] + SelectFrom(groups, recent, 0), window, active, None, omitted,
                        items).value,
              [SummaryMarker(text)], items)
  {
    var groups, marker := Groups(history).value, SummaryMarker(text);
    var recent := RecentGroups(groups, OldGroups(groups, PinnedGroups(groups, active)));
    RecentHasPinnedAndLast(groups, active);
    hide Groups, Tokens, FitGroups, PinnedGroups, OldGroups, RecentGroups, Render, SelectFrom, KeepsPinned;
    RegroupedAsBefore(history, recent, text);
    var regrouped := [[marker]] + KeptGroups(groups, recent, 0);
    var input := [marker] + SelectFrom(groups, recent, 0);
    FitGroupsFits(env, input, window, active, None, omitted, items);
    var r := FitGroups(env, input, window, active, None, omitted, items).value;
    var again :| PinnedGroups(regrouped, active) <= again && r == Render(env, regrouped, again, omitted, items);
    var kept := SummarySelection(groups, recent, text, again, active);
    RenderIsFramed(env, regrouped, active, again, omitted, items, [marker], groups, kept);
  }

  lemma {:induction false} SummarySelection(groups: seq<seq<Item>>, recent: set<nat>, text: string, again: set<nat>,
                                            active: Option<int>) returns (kept: set<nat>)
    requires PinnedGroups(groups, active) <= recent
    requires PinnedGroups([[SummaryMarker(text)]] + KeptGroups(groups, recent, 0), active) <= again
    ensures PinnedGroups(groups, active) <= kept
    ensures SelectFrom([[SummaryMarker(text)]] + KeptGroups(groups, recent, 0), again, 0)
            == [SummaryMarker(text)] + SelectFrom(groups, kept, 0)
  {
    var marker := SummaryMarker(text);
    var regrouped := [[marker]] + KeptGroups(groups, recent, 0);
    assert regrouped[1..] == KeptGroups(groups, recent, 0);
    assert HasSummary(regrouped[0]) by { RunMarker(text); assert IsSummary([marker][0]); }
    MarkerIsPinned(regrouped, active);
    assert !HasUser(regrouped[0]);
    hide HasUser, HasSummary, IsPinnedGroup;
    kept := ComposeSelections(groups, recent, 0, regrouped, again, 1, active);
    assert 0 in PinnedGroups(regrouped, active);
  }

  lemma {:induction false} MarkerIsPinned(regrouped: seq<seq<Item>>, active: Option<int>)
    requires regrouped != [] && HasSummary(regrouped[0])
    ensures IsPinnedGroup(regrouped, active, 0)
  {
  }

  lemma {:induction false} RecentHasPinnedAndLast(groups: seq<seq<Item>>, active: Option<int>)
    ensures var recent := RecentGroups(groups, OldGroups(groups, PinnedGroups(groups, active)));
            && PinnedGroups(groups, active) <= recent
            && (groups != [] ==> |groups| - 1 in recent)
  {
    hide IsPinnedGroup;
    var pinned := PinnedGroups(groups, active);
    var eligible := EligibleBelow(if |groups| >= 2 then |groups| - 2 else 0, pinned);
    assert forall i | i in OldGroups(groups, pinned) :: i in eligible;
  }

  /** Whatever path L5 takes, it returns its unchanged input within the trigger, or every pinned group
      of it verbatim and in order: behind the new summary on the summarising path, behind nothing on
      the other, and in front of nothing but the omission marker. Earlier summaries do not survive: the
      new one stands for them, or the marker counts them. */
  lemma {:induction false} PinnedSurvive(env: Env, history: seq<Item>, window: int, trigger: int, active: Option<int>,
                                         allowSummary: bool, previousReadable: bool, attempt: Attempt)
    requires AutoCompacted(env, history, window, trigger, active, allowSummary, previousReadable, attempt).Ok?
    ensures var r := AutoCompacted(env, history, window, trigger, active, allowSummary, previousReadable,
                                   attempt).value;
            || (r == history && Tokens(env, history) <= trigger)
            || (&& Groups(Working(history)).Some?
                && var groups := Groups(Working(history)).value;
                   || KeepsPinned(env, groups, active, r, [], PriorItems(history) + CountSummaries(history))
                   || (attempt.Summarized?
                       && KeepsPinned(env, groups, active, r, [SummaryMarker(attempt.text)],
                                      PriorItems(history) + attempt.dropped)))
  {
    hide Groups, Tokens, FitGroups, OldGroups, RecentGroups, SelectFrom, PinnedGroups, KeepsPinned, Fallback;
    var r := AutoCompacted(env, history, window, trigger, active, allowSummary, previousReadable, attempt).value;
    if r != history || Tokens(env, history) > trigger {
      WorkingHasNoSummary(history);
      if Fallback(env, history, window, active) == Ok(r) {
        FallbackKeepsPinned(env, history, window, active);
      } else {
        SummaryKeepsPinned(env, Working(history), window, active, attempt.text,
                           PriorOmitted(history) + attempt.omitted, PriorItems(history) + attempt.dropped);
      }
    }
  }
}
