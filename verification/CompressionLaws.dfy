/** No stage separates a call from its result, and what the rewriting stages leave alone. */
module CompressionLaws {
  import opened Results
  import opened HistoryItems
  import opened Interactions
  import opened InteractionLaws
  import opened Rewriting
  import opened Compression

  // ----- histories that make no call and answer none

  predicate Silent(history: seq<Item>) {
    history == [] || (CallIds(history[0]) == [] && ResultIds(history[0]) == [] && Silent(history[1..]))
  }

  lemma {:induction false} SilentTrack(history: seq<Item>, pending: set<Id>, seen: set<Id>)
    requires Silent(history)
    ensures Track(history, pending, seen) == Some((pending, seen))
    ensures CallSet(history) == {}
    decreases |history|
  {
    hide ResultIds, CallIds, TrackItem;
    if history != [] {
      SilentItem(history[0], pending, seen);
      SilentTrack(history[1..], pending, seen);
    }
  }

  lemma {:induction false} SilentItem(item: Item, pending: set<Id>, seen: set<Id>)
    requires CallIds(item) == [] && ResultIds(item) == []
    ensures TrackItem(item, pending, seen) == Some((pending, seen))
  {
    hide ResultIds, CallIds;
    assert pending - IdSet([]) + IdSet([]) == pending && seen + IdSet([]) == seen;
  }

  lemma {:induction false} SilentConcat(a: seq<Item>, b: seq<Item>)
    requires Silent(a) && Silent(b)
    ensures Silent(a + b)
  {
    hide ResultIds, CallIds;
    if a == [] {
      assert a + b == b;
    } else {
      SilentConcat(a[1..], b);
      assert (a + b)[1..] == a[1..] + b;
    }
  }

  // ----- replacing whole groups

  /** Replacing self-contained groups by themselves or by silent items keeps all calls answered. */
  lemma {:induction false} RewrittenGroupsAreClosed(groups: seq<seq<Item>>, rewritten: seq<seq<Item>>, seen: set<Id>,
                                                    fewer: set<Id>)
    requires GoodGroups(groups, seen) && fewer <= seen && |rewritten| == |groups|
    requires forall i | 0 <= i < |groups| :: rewritten[i] == groups[i] || Silent(rewritten[i])
    ensures Closed(Flatten(rewritten), fewer)
  {
    hide Track, Silent;
    if groups == [] {
      assert Flatten(rewritten) == [];
      TrackEmpty(fewer);
    } else {
      var rest := rewritten[1..];
      assert forall i | 0 <= i < |rest| :: rest[i] == rewritten[i + 1] && groups[1..][i] == groups[i + 1];
      RewrittenGroupsAreClosed(groups[1..], rest, seen + CallSet(groups[0]), fewer + CallSet(rewritten[0])) by {
        if Silent(rewritten[0]) { SilentTrack(rewritten[0], {}, fewer); }
      }
      assert Closed(rewritten[0], fewer) by {
        if rewritten[0] == groups[0] {
          TrackFewerSeen(groups[0], {}, seen, fewer);
        } else {
          SilentTrack(rewritten[0], {}, fewer);
          assert fewer + {} == fewer;
        }
      }
      ClosedConcat(rewritten[0], Flatten(rest), fewer);
    }
  }

  lemma {:induction false} TrackEmpty(seen: set<Id>)
    ensures Closed([], seen)
  {
    assert seen + CallSet([]) == seen;
  }

  lemma {:induction false} RewrittenIsAccepted(history: seq<Item>, rewritten: seq<seq<Item>>)
    requires Groups(history).Some? && |rewritten| == |Groups(history).value|
    requires forall i | 0 <= i < |rewritten| :: rewritten[i] == Groups(history).value[i] || Silent(rewritten[i])
    ensures Groups(Flatten(rewritten)).Some?
  {
    hide Groups, GoodGroups, Closed, Silent;
    GroupsAreInteractions(history);
    RewrittenGroupsAreClosed(Groups(history).value, rewritten, {}, {});
    AcceptedIsClosed(Flatten(rewritten));
  }

  // ----- replacing single items

  predicate SameIds(a: seq<Item>, b: seq<Item>)
    requires |a| == |b|
  {
    a == [] || (CallIds(a[0]) == CallIds(b[0]) && ResultIds(a[0]) == ResultIds(b[0]) && SameIds(a[1..], b[1..]))
  }

  lemma {:induction false} SameIdsTrack(a: seq<Item>, b: seq<Item>, pending: set<Id>, seen: set<Id>)
    requires |a| == |b| && SameIds(a, b)
    ensures Track(a, pending, seen) == Track(b, pending, seen) && AllCalls(a) == AllCalls(b)
    decreases |a|
  {
    hide ResultIds, CallIds, ResultsAllowed, CallsAllowed;
    if a != [] {
      assert TrackItem(a[0], pending, seen) == TrackItem(b[0], pending, seen);
      match TrackItem(a[0], pending, seen)
      case None => SameIdsTrack(a[1..], b[1..], pending, seen);
      case Some((p, s)) =>
        SameIdsTrack(a[1..], b[1..], p, s);
    }
  }

  lemma {:induction false} SameIdsAccepted(a: seq<Item>, b: seq<Item>)
    requires |a| == |b| && SameIds(a, b)
    ensures Groups(a).Some? <==> Groups(b).Some?
  {
    hide Groups, Track, SameIds, AllCalls;
    AcceptedIsClosed(a);
    AcceptedIsClosed(b);
    SameIdsTrack(a, b, {}, {});
  }

  // ----- L0

  lemma {:induction false} NoUseIds(blocks: seq<Block>)
    requires !HasToolUse(blocks)
    ensures UseIds(blocks) == []
  {
    if blocks != [] {
      assert !HasToolUse(blocks[1..]) by {
        assert forall i | 0 <= i < |blocks[1..]| :: blocks[1..][i] == blocks[i + 1];
      }
      NoUseIds(blocks[1..]);
    }
  }

  lemma {:induction false} NonemptyIds(ids: seq<Id>)
    ensures IdSet(ids) == {} ==> ids == []
  {
    if ids != [] { assert ids[0] in IdSet(ids); }
  }

  /** A self-contained group without calls is silent, and so is what filtering leaves of it. */
  lemma {:induction false} CallFreeIsSilent(group: seq<Item>, seen: set<Id>)
    requires Track(group, {}, seen).Some? && !HasToolCall(group)
    ensures Silent(group)
    decreases |group|
  {
    hide ResultIds;
    if group != [] {
      assert !MakesCall(group[0]);
      NoUseIds(BlocksOf(group[0]));
      assert CallIds(group[0]) == [];
      var results := ResultIds(group[0]);
      assert ResultsAllowed(results, {});
      NonemptyIds(results);
      assert TrackItem(group[0], {}, seen) == Some(({}, seen)) by {
        assert {} - IdSet([]) + IdSet([]) == {} && seen + IdSet([]) == seen;
      }
      assert !HasToolCall(group[1..]) by {
        assert forall i | 0 <= i < |group[1..]| :: group[1..][i] == group[i + 1];
      }
      CallFreeIsSilent(group[1..], seen);
    }
  }

  lemma {:induction false} FilterSilent(env: Env, policy: TierPolicy, items: seq<Item>)
    requires Silent(items)
    ensures Silent(Filter(env, policy, items))
  {
    hide Keeps, ResultIds, CallIds;
    if items != [] {
      FilterSilent(env, policy, items[1..]);
      SilentConcat(if Keeps(env, policy, items[0]) then [items[0]] else [], Filter(env, policy, items[1..]));
    }
  }

  lemma {:induction false} GuardedAt(env: Env, policy: TierPolicy, groups: seq<seq<Item>>)
    ensures |GuardGroups(env, policy, groups)| == |groups|
    ensures forall i | 0 <= i < |groups| :: GuardGroups(env, policy, groups)[i] == GuardGroup(env, policy, groups[i])
  {
    hide GuardGroup;
    if groups != [] { GuardedAt(env, policy, groups[1..]); }
  }

  lemma {:induction false} GoodGroupAt(groups: seq<seq<Item>>, seen: set<Id>, i: nat)
    requires GoodGroups(groups, seen) && i < |groups|
    ensures groups[i] != [] && Track(groups[i], {}, {}) == Some(({}, {} + CallSet(groups[i])))
  {
    hide *;
    GoodFirst(groups, seen);
    if i > 0 {
      GoodGroupAt(groups[1..], seen + CallSet(groups[0]), i - 1);
      assert groups[i] == groups[1..][i - 1];
    } else {
      TrackFewerSeen(groups[0], {}, seen, {});
    }
  }

  lemma {:induction false} GoodFirst(groups: seq<seq<Item>>, seen: set<Id>)
    requires groups != [] && GoodGroups(groups, seen)
    ensures groups[0] != [] && Track(groups[0], {}, seen) == Some(({}, seen + CallSet(groups[0])))
    ensures GoodGroups(groups[1..], seen + CallSet(groups[0]))
  {
    hide Track, CallSet;
  }

  /** L0 never refuses an accepted history and keeps its calls and results together. */
  lemma {:induction false} TierGuardKeepsPairs(env: Env, policy: TierPolicy, history: seq<Item>)
    requires Groups(history).Some?
    ensures TierGuard(env, policy, history).Some? && Groups(TierGuard(env, policy, history).value).Some?
  {
    hide Groups, HasToolCall, HasRepairState, Track, Silent, Filter;
    var groups := Groups(history).value;
    var guarded := GuardGroups(env, policy, groups);
    GroupsAreInteractions(history);
    GuardedAt(env, policy, groups);
    forall i | 0 <= i < |groups| ensures guarded[i] == groups[i] || Silent(guarded[i]) {
      if !HasToolCall(groups[i]) {
        GoodGroupAt(groups, {}, i);
        CallFreeIsSilent(groups[i], {});
        FilterSilent(env, policy, groups[i]);
      }
    }
    RewrittenIsAccepted(history, guarded);
  }

  // ----- L1

  lemma {:induction false} TruncateSameIds(env: Env, history: seq<Item>)
    ensures |TruncateAll(env, history)| == |history| && SameIds(history, TruncateAll(env, history))
  {
    if history != [] {
      TruncateSameIds(env, history[1..]);
      var rest := TruncateAll(env, history[1..]);
      assert ([Truncated(env, history[0])] + rest)[1..] == rest;
    }
  }

  /** L1 keeps calls and results together, and refuses nothing more and nothing less. */
  lemma {:induction false} TruncateKeepsPairs(env: Env, history: seq<Item>)
    ensures Groups(TruncateAll(env, history)).Some? <==> Groups(history).Some?
  {
    hide Groups, SameIds, TruncateAll;
    TruncateSameIds(env, history);
    SameIdsAccepted(history, TruncateAll(env, history));
  }

  // ----- L2 and L4

  lemma {:induction false} MarkersAreSilent(env: Env, i: nat, turn: seq<Item>)
    ensures Silent(SnipMarker(env, i, turn)) && Silent(CollapseMarker(env, i, turn))
  {
    assert SnipMarker(env, i, turn)[1..] == [] && CollapseMarker(env, i, turn)[1..] == [];
    assert forall item: Item | item.content.Text? && item.toolCalls == [] && item.role == "system" ::
        CallIds(item) == [] && ResultIds(item) == [];
  }

  /** What a rewriting stage does to the turns: a marker or the original each; protected and current
      turns untouched; it stops only under the threshold or when no turn is left to rewrite; and no
      shorter rewriting of oldest turns would have been small enough. */
  ghost predicate RewritesOldest(env: Env, turns: seq<seq<Item>>, result: seq<seq<Item>>, threshold: int, tail: nat,
                                 active: Option<int>, eligible: (nat, seq<Item>) -> bool,
                                 marker: (nat, seq<Item>) -> seq<Item>)
  {
    && |result| == |turns|
    && (forall i | 0 <= i < |turns| :: result[i] == turns[i] || result[i] == marker(i, turns[i]))
    && (forall i | 0 <= i < |turns| && IsProtected(env, turns, tail, active, i) :: result[i] == turns[i])
    && (Tokens(env, Flatten(result)) <= threshold || forall i | 0 <= i < |turns| :: !eligible(i, result[i]))
    && exists cut: nat | cut <= |turns| ::
         && result == Rewritten(turns, cut, eligible, marker)
         && forall c | 0 <= c < cut :: Tokens(env, Flatten(Rewritten(turns, c, eligible, marker))) > threshold
  }

  lemma {:induction false} SnipRewritesOldest(env: Env, turns: seq<seq<Item>>, threshold: int, tail: nat,
                                              active: Option<int>)
    ensures RewritesOldest(env, turns, SnipTurns(env, turns, threshold, tail, active), threshold, tail, active,
                           Snippable(env, Protected(env, turns, tail, active), active), SnipWith(env))
  {
    hide ScoresSnip, AnySnip, SnipMarker, IsProtected, Tokens, Flatten;
    var eligible := Snippable(env, Protected(env, turns, tail, active), active);
    var cut := LeastCut(turns, 0, eligible, SnipWith(env), TurnTokens(env), threshold);
    MarkersNotSnippable(env, Protected(env, turns, tail, active), active);
    assert SnipTurns(env, turns, threshold, tail, active) == Rewritten(turns, cut, eligible, SnipWith(env));
    assert forall ts :: TurnTokens(env)(ts) == Tokens(env, Flatten(ts));
  }

  lemma {:induction false} CollapseRewritesOldest(env: Env, turns: seq<seq<Item>>, threshold: int, tail: nat,
                                                  active: Option<int>)
    ensures RewritesOldest(env, turns, CollapseTurns(env, turns, threshold, tail, active), threshold, tail, active,
                           Foldable(env, Protected(env, turns, tail, active), active), CollapseWith(env))
  {
    hide Collapsible, CollapseMarker, IsProtected, Tokens, Flatten;
    var eligible := Foldable(env, Protected(env, turns, tail, active), active);
    var cut := LeastCut(turns, 0, eligible, CollapseWith(env), TurnTokens(env), threshold);
    MarkersNotFoldable(env, Protected(env, turns, tail, active), active);
    assert CollapseTurns(env, turns, threshold, tail, active) == Rewritten(turns, cut, eligible, CollapseWith(env));
    assert forall ts :: TurnTokens(env)(ts) == Tokens(env, Flatten(ts));
  }

  function SuffixTokens(env: Env, turns: seq<seq<Item>>, from: nat): nat
    requires from <= |turns|
    decreases |turns| - from
  {
    if from == |turns| then 0 else Tokens(env, turns[from]) + SuffixTokens(env, turns, from + 1)
  }

  /** The protected tail is the shortest run of last turns that reaches the token allowance. */
  lemma {:induction false} TailIsShortest(env: Env, turns: seq<seq<Item>>, tail: nat, i: nat)
    requires i <= |turns|
    requires forall j | i < j <= |turns| :: SuffixTokens(env, turns, j) < tail
    ensures var start := TailStart(env, turns, tail, i, SuffixTokens(env, turns, i));
            && (start == 0 || SuffixTokens(env, turns, start) >= tail)
            && forall j | start < j <= |turns| :: SuffixTokens(env, turns, j) < tail
    decreases i
  {
    hide Tokens;
    var count := SuffixTokens(env, turns, i);
    if i > 0 && count < tail {
      if count + Tokens(env, turns[i - 1]) <= tail {
        TailIsShortest(env, turns, tail, i - 1);
      }
    }
  }

  /** L2 never refuses an accepted history and keeps its calls and results together. */
  lemma {:induction false} SnipKeepsPairs(env: Env, history: seq<Item>, threshold: int, tail: nat, active: Option<int>)
    requires Groups(history).Some?
    ensures Snip(env, history, threshold, tail, active).Some?
    ensures Groups(Snip(env, history, threshold, tail, active).value).Some?
  {
    hide Groups, Silent, SnipMarker, SnipTurns, Tokens, Flatten;
    var turns := Groups(history).value;
    var result := SnipTurns(env, turns, threshold, tail, active);
    SnipRewritesOldest(env, turns, threshold, tail, active);
    forall i | 0 <= i < |turns| ensures result[i] == turns[i] || Silent(result[i]) {
      MarkersAreSilent(env, i, turns[i]);
    }
    RewrittenIsAccepted(history, result);
  }

  /** L4 never refuses an accepted history and keeps its calls and results together. */
  lemma {:induction false} CollapseKeepsPairs(env: Env, history: seq<Item>, threshold: int, tail: nat,
                                              active: Option<int>)
    requires Groups(history).Some?
    ensures Collapse(env, history, threshold, tail, active).Some?
    ensures Groups(Collapse(env, history, threshold, tail, active).value).Some?
  {
    hide Groups, Silent, CollapseMarker, CollapseTurns, Tokens, Flatten;
    var turns := Groups(history).value;
    var result := CollapseTurns(env, turns, threshold, tail, active);
    CollapseRewritesOldest(env, turns, threshold, tail, active);
    forall i | 0 <= i < |turns| ensures result[i] == turns[i] || Silent(result[i]) {
      MarkersAreSilent(env, i, turns[i]);
    }
    RewrittenIsAccepted(history, result);
  }

  // ----- L3

  lemma {:induction false} RefsSameIds(history: seq<Item>, last: nat)
    ensures |AssignRefs(history, last)| == |history| && SameIds(history, AssignRefs(history, last))
  {
    if history != [] {
      var tagged := history[0].role == "tool" && !history[0].snip;
      var next := if tagged then last + 1 else last;
      RefsSameIds(history[1..], next);
      var rest := AssignRefs(history[1..], next);
      var first := if tagged then history[0].(refId := last + 1) else history[0];
      assert AssignRefs(history, last) == [first] + rest && ([first] + rest)[1..] == rest;
    }
  }

  lemma {:induction false} PointwiseSameIds(a: seq<Item>, b: seq<Item>)
    requires |a| == |b|
    requires forall i | 0 <= i < |a| :: CallIds(a[i]) == CallIds(b[i]) && ResultIds(a[i]) == ResultIds(b[i])
    ensures SameIds(a, b)
  {
    hide CallIds, ResultIds;
    if a != [] {
      assert forall i | 0 <= i < |a[1..]| :: a[1..][i] == a[i + 1] && b[1..][i] == b[i + 1];
      PointwiseSameIds(a[1..], b[1..]);
    }
  }

  lemma {:induction false} CompactedSameIds(env: Env, turns: seq<seq<Item>>, protected: set<nat>, i: nat, item: Item)
    requires Compactable(env, turns, protected)(i, item)
    ensures CallIds(CompactWith(env)(i, item)) == CallIds(item)
    ensures ResultIds(CompactWith(env)(i, item)) == ResultIds(item)
  {
    hide IsRepairState, HasProtectedContent;
  }

  /** L3 never refuses an accepted history and keeps its calls and results together. */
  lemma {:induction false} MicrocompactKeepsPairs(env: Env, history: seq<Item>, threshold: int, tail: nat,
                                                  active: Option<int>)
    requires Groups(history).Some?
    ensures Microcompact(env, history, threshold, tail, active).Some?
    ensures Groups(Microcompact(env, history, threshold, tail, active).value).Some?
  {
    hide Groups, Tokens, SameIds, CallIds, ResultIds, AssignRefs, Protected, Compactable, CompactWith;
    var turns := Groups(history).value;
    var eligible := Compactable(env, turns, Protected(env, turns, tail, active));
    var working := AssignRefs(history, 0);
    RefsSameIds(history, 0);
    SameIdsAccepted(history, working);
    var cut := LeastCut(working, 0, eligible, CompactWith(env), ItemTokens(env), threshold);
    var result := Rewritten(working, cut, eligible, CompactWith(env));
    forall i | 0 <= i < |working|
           ensures CallIds(working[i]) == CallIds(result[i]) && ResultIds(working[i]) == ResultIds(result[i]) {
      if i < cut && eligible(i, working[i]) {
        CompactedSameIds(env, turns, Protected(env, turns, tail, active), i, working[i]);
      }
    }
    PointwiseSameIds(working, result);
    SameIdsAccepted(working, result);
  }

  lemma {:induction false} StubsNotCompactable(env: Env, turns: seq<seq<Item>>, protected: set<nat>)
    ensures forall i: nat, item: Item :: !Compactable(env, turns, protected)(i, CompactWith(env)(i, item))
  {
    hide IsRepairState, HasProtectedContent, TurnOf, ContentText;
  }

  /** What L3 does to the numbered items: each stays or becomes its stub; items of protected turns, state
      records, answers to identified calls and items that mention an error stay; it stops only under the
      threshold or when no item is left to replace; and no fewer oldest items would have been enough. */
  ghost predicate StubsOldest(env: Env, turns: seq<seq<Item>>, working: seq<Item>, result: seq<Item>, threshold: int,
                              protected: set<nat>)
  {
    var eligible := Compactable(env, turns, protected);
    && |result| == |working|
    && (forall i | 0 <= i < |working| ::
          result[i] == working[i] || (eligible(i, working[i]) && result[i] == CompactWith(env)(i, working[i])))
    && (forall i | 0 <= i < |working| && KeptByL3(env, turns, protected, i, working[i]) :: result[i] == working[i])
    && (Tokens(env, result) <= threshold || forall i | 0 <= i < |working| :: !eligible(i, result[i]))
    && exists cut: nat | cut <= |working| ::
         && result == Rewritten(working, cut, eligible, CompactWith(env))
         && forall c | 0 <= c < cut :: Tokens(env, Rewritten(working, c, eligible, CompactWith(env))) > threshold
  }

  predicate KeptByL3(env: Env, turns: seq<seq<Item>>, protected: set<nat>, i: nat, item: Item) {
    TurnOf(turns, i) in protected || item.role != "tool" || IsRepairState(item) || item.toolCallId != ""
    || HasProtectedContent(env, item)
  }

  lemma {:induction false} KeptIsNotCompactable(env: Env, turns: seq<seq<Item>>, protected: set<nat>, i: nat,
                                                item: Item)
    ensures KeptByL3(env, turns, protected, i, item) ==> !Compactable(env, turns, protected)(i, item)
  {
    hide IsRepairState, HasProtectedContent, TurnOf;
  }

  /** L3 returns its input when that is small enough, and otherwise its numbered items with the oldest
      eligible ones stubbed. */
  lemma {:induction false} MicrocompactStubsOldest(env: Env, history: seq<Item>, threshold: int, tail: nat,
                                                   active: Option<int>)
    requires Groups(history).Some? && Tokens(env, history) > threshold
    ensures var turns := Groups(history).value;
            Microcompact(env, history, threshold, tail, active).Some?
            && StubsOldest(env, turns, AssignRefs(history, 0),
                           Microcompact(env, history, threshold, tail, active).value,
                           threshold, Protected(env, turns, tail, active))
  {
    hide Groups, Tokens, AssignRefs, Protected, Compactable, CompactWith, KeptByL3;
    var turns := Groups(history).value;
    var protected := Protected(env, turns, tail, active);
    var eligible, working := Compactable(env, turns, protected), AssignRefs(history, 0);
    var cut := LeastCut(working, 0, eligible, CompactWith(env), ItemTokens(env), threshold);
    var result := Rewritten(working, cut, eligible, CompactWith(env));
    StubsNotCompactable(env, turns, protected);
    assert forall items :: ItemTokens(env)(items) == Tokens(env, items);
    forall i | 0 <= i < |working| && KeptByL3(env, turns, protected, i, working[i]) ensures result[i] == working[i] {
      KeptIsNotCompactable(env, turns, protected, i, working[i]);
    }
  }
}
