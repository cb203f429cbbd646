/** What each of the stages L0 to L4 makes of its input, stated over positions, groups and tokens. */
module StageLaws {
  import opened Results
  import opened HistoryItems
  import opened Interactions
  import opened InteractionLaws
  import opened Rewriting
  import opened Compression
  import opened CompressionLaws
  import opened StageRules
  import ToolTruncation

  // ----- L0

  /** The items at the chosen positions below `n`, in order. */
  function Picked(items: seq<Item>, chosen: set<nat>, n: nat): seq<Item>
    requires n <= |items|
  {
    if n == 0 then [] else Picked(items, chosen, n - 1) + if n - 1 in chosen then [items[n - 1]] else []
  }

  /** A group with a call or a state record is kept whole. */
  predicate IsBound(group: seq<Item>) {
    exists u | 0 <= u < |group| :: Calls(group[u]) || IsRepairState(group[u])
  }

  /** The item makes an identified call, or an assistant names a tool in it. */
  predicate Calls(item: Item) { CallIds(item) != [] || (item.role == "assistant" && item.toolName != "") }

  function Staying(env: Env, policy: TierPolicy, group: seq<Item>): set<nat> {
    set u: nat | u < |group| && (IsBound(group) || MayStay(env, policy, group[u]))
  }

  ghost predicate GuardedGroups(env: Env, policy: TierPolicy, groups: seq<seq<Item>>, kept: seq<seq<Item>>) {
    && |kept| == |groups|
    && forall g | 0 <= g < |groups| :: kept[g] == Picked(groups[g], Staying(env, policy, groups[g]), |groups[g]|)
  }

  /** What comes out of L0 are, group by group and in order, the items that stay. */
  ghost predicate Guards(env: Env, policy: TierPolicy, history: seq<Item>, guarded: seq<Item>) {
    Groups(history).Some? && exists kept ::
      GuardedGroups(env, policy, Groups(history).value, kept) && guarded == Flatten(kept)
  }

  lemma {:induction false} PickedStep(items: seq<Item>, chosen: set<nat>, n: nat)
    requires n <= |items|
    ensures n == 0 ==> Picked(items, chosen, n) == []
    ensures n > 0 ==>
              Picked(items, chosen, n) == Picked(items, chosen, n - 1) + if n - 1 in chosen then [items[n - 1]] else []
  {
  }

  lemma {:induction false} AllPicked(items: seq<Item>, chosen: set<nat>, n: nat)
    requires n <= |items| && forall u | 0 <= u < n :: u in chosen
    ensures Picked(items, chosen, n) == items[..n]
  {
    hide *;
    PickedStep(items, chosen, n);
    if n > 0 {
      AllPicked(items, chosen, n - 1);
      assert items[..n] == items[..n - 1] + [items[n - 1]];
    }
  }

  lemma {:induction false} FilterSnoc(env: Env, policy: TierPolicy, items: seq<Item>, last: Item)
    ensures Filter(env, policy, items + [last])
         == Filter(env, policy, items) + if Keeps(env, policy, last) then [last] else []
    decreases |items|
  {
    hide Keeps;
    if items == [] {
      assert [] + [last] == [last] && [last][1..] == [];
    } else {
      assert (items + [last])[1..] == items[1..] + [last];
      FilterSnoc(env, policy, items[1..], last);
    }
  }

  lemma {:induction false} FilterEmpty(env: Env, policy: TierPolicy)
    ensures Filter(env, policy, []) == []
  {
  }

  lemma {:induction false} FilterPicks(env: Env, policy: TierPolicy, items: seq<Item>, chosen: set<nat>, n: nat)
    requires n <= |items| && forall u: nat | u < |items| :: u in chosen <==> MayStay(env, policy, items[u])
    ensures Filter(env, policy, items[..n]) == Picked(items, chosen, n)
  {
    hide *;
    PickedStep(items, chosen, n);
    if n == 0 {
      FilterEmpty(env, policy);
    } else {
      FilterPicks(env, policy, items, chosen, n - 1);
      FilterSnoc(env, policy, items[..n - 1], items[n - 1]);
      KeepRule(env, policy, items[n - 1]);
      assert items[..n] == items[..n - 1] + [items[n - 1]];
    }
  }

  lemma {:induction false} BoundIs(group: seq<Item>)
    ensures HasToolCall(group) || HasRepairState(group) <==> IsBound(group)
  {
    forall u | 0 <= u < |group| ensures MakesCall(group[u]) <==> Calls(group[u]) { CallsIs(group[u]); }
    hide MakesCall, Calls, IsRepairState;
  }

  lemma {:induction false} CallsIs(item: Item)
    ensures MakesCall(item) <==> Calls(item)
  {
    UsesHaveIds(BlocksOf(item));
  }

  lemma {:induction false} UsesHaveIds(blocks: seq<Block>)
    ensures HasToolUse(blocks) <==> UseIds(blocks) != []
  {
    if blocks != [] {
      UsesHaveIds(blocks[1..]);
      assert forall i | 0 <= i < |blocks[1..]| :: blocks[1..][i] == blocks[i + 1];
      assert forall i | 0 < i < |blocks| :: blocks[i] == blocks[1..][i - 1];
    }
  }

  lemma {:induction false} StayingIs(env: Env, policy: TierPolicy, group: seq<Item>, u: nat)
    ensures u in Staying(env, policy, group) <==> u < |group| && (IsBound(group) || MayStay(env, policy, group[u]))
  {
    hide IsBound, MayStay;
  }

  lemma {:induction false} GroupIsGuarded(env: Env, policy: TierPolicy, group: seq<Item>)
    ensures GuardGroup(env, policy, group) == Picked(group, Staying(env, policy, group), |group|)
  {
    hide HasToolCall, HasRepairState, IsBound, MayStay, Filter, Picked, Staying;
    BoundIs(group);
    forall u: nat ensures u in Staying(env, policy, group)
                          <==> u < |group| && (IsBound(group) || MayStay(env, policy, group[u])) {
      StayingIs(env, policy, group, u);
    }
    assert group[..|group|] == group;
    if IsBound(group) {
      AllPicked(group, Staying(env, policy, group), |group|);
    } else {
      FilterPicks(env, policy, group, Staying(env, policy, group), |group|);
    }
  }

  lemma {:induction false} TierGuardIs(env: Env, policy: TierPolicy, history: seq<Item>)
    requires Groups(history).Some?
    ensures TierGuard(env, policy, history).Some?
            && Guards(env, policy, history, TierGuard(env, policy, history).value)
  {
    hide Groups, GuardGroup, GuardGroups, Staying, Picked, Flatten;
    var groups := Groups(history).value;
    var kept := GuardGroups(env, policy, groups);
    GuardedAt(env, policy, groups);
    forall g | 0 <= g < |groups|
      ensures kept[g] == Picked(groups[g], Staying(env, policy, groups[g]), |groups[g]|)
    {
      GroupIsGuarded(env, policy, groups[g]);
    }
    assert GuardedGroups(env, policy, groups, kept);
  }

  // ----- L1

  /** A text within its tool's limit stays; of a longer one the most that fits beside the note is kept. */
  ghost predicate ShortensText(env: Env, text: string, toolName: string, shortened: string) {
    if env.countText(text) <= ToolTruncation.TruncationLimit(toolName) then shortened == text
    else exists body ::
      && ToolTruncation.KeepsMost(env, text, ToolTruncation.BodyLimit(env, text, toolName), body)
      && shortened == body + ToolTruncation.Suffix(env, text)
  }

  ghost predicate ShortensItem(env: Env, before: Item, after: Item) {
    if IsPlain(before) then
      && after.content.Text? && after == before.(content := after.content)
      && ShortensText(env, before.content.text, before.toolName, after.content.text)
    else after == before
  }

  /** L1 shortens the plain tool texts and changes nothing else. */
  ghost predicate Shortens(env: Env, before: seq<Item>, after: seq<Item>) {
    |after| == |before| && forall k | 0 <= k < |before| :: ShortensItem(env, before[k], after[k])
  }

  lemma {:induction false} TruncateShortens(env: Env, text: string, toolName: string)
    ensures ShortensText(env, text, toolName, ToolTruncation.Truncate(env, text, toolName))
  {
    hide ToolTruncation.TruncationLimit, ToolTruncation.BodyLimit, ToolTruncation.KeepsMost, ToolTruncation.Body,
         ToolTruncation.Suffix;
    ToolTruncation.BodyKeepsMost(env, text, ToolTruncation.BodyLimit(env, text, toolName));
  }

  lemma {:induction false} TruncatedAt(env: Env, history: seq<Item>, k: nat)
    requires k < |history|
    ensures |TruncateAll(env, history)| == |history| && TruncateAll(env, history)[k] == Truncated(env, history[k])
  {
    hide Truncated;
    if k > 0 {
      TruncatedAt(env, history[1..], k - 1);
    } else if |history| > 1 {
      TruncatedAt(env, history[1..], 0);
    }
  }

  lemma {:induction false} ItemShortens(env: Env, item: Item)
    ensures ShortensItem(env, item, Truncated(env, item))
  {
    hide IsRepairState, ShortensText;
    if item.content.Text? { TruncateShortens(env, item.content.text, item.toolName); }
  }

  lemma {:induction false} TruncateAllShortens(env: Env, history: seq<Item>)
    ensures Shortens(env, history, TruncateAll(env, history))
  {
    hide ShortensItem, Truncated;
    if history == [] { assert TruncateAll(env, history) == []; } else { TruncatedAt(env, history, 0); }
    forall k | 0 <= k < |history| ensures ShortensItem(env, history[k], TruncateAll(env, history)[k]) {
      TruncatedAt(env, history, k);
      ItemShortens(env, history[k]);
    }
  }

  /** A shortened text is within its limit whenever the note and the least body are. */
  lemma {:induction false} ShortenedFits(env: Env, text: string, toolName: string, shortened: string)
    requires ToolTruncation.Trims(env) && ToolTruncation.CountsAddUp(env)
    requires ToolTruncation.LEAST_BODY + env.countText(ToolTruncation.Suffix(env, text))
             <= ToolTruncation.TruncationLimit(toolName)
    requires ShortensText(env, text, toolName, shortened)
    ensures env.countText(shortened) <= ToolTruncation.TruncationLimit(toolName)
  {
    hide ToolTruncation.TruncationLimit, ToolTruncation.KeepsMost, ToolTruncation.Suffix;
    var limit := ToolTruncation.BodyLimit(env, text, toolName);
    if env.countText(text) > ToolTruncation.TruncationLimit(toolName) {
      var body :| ToolTruncation.KeepsMost(env, text, limit, body)
                  && shortened == body + ToolTruncation.Suffix(env, text);
      KeptFits(env, text, limit, body);
    }
  }

  lemma {:induction false} KeptFits(env: Env, text: string, limit: nat, body: string)
    requires ToolTruncation.Trims(env) && ToolTruncation.KeepsMost(env, text, limit, body)
    ensures env.countText(body) <= limit
  {
    hide ToolTruncation.StablyOrdered, ToolTruncation.Joined;
    var lines, n :| ToolTruncation.Keeps(env, text, limit, body, lines, n);
    assert n > 0 ==> ToolTruncation.Fitting(env, lines, n, limit);
    ToolTruncation.JoinedNothing();
    assert lines[..0] == [];
  }

  // ----- rewriting the oldest

  /** The eligible entries below the cut are their marks; all others are as before. */
  ghost predicate RewrittenBelow<T>(items: seq<T>, eligible: set<nat>, marks: seq<T>, cut: nat, other: seq<T>) {
    && |marks| == |items| && |other| == |items|
    && forall i: nat | i < |items| :: other[i] == if i < cut && i in eligible then marks[i] else items[i]
  }

  /** The eligible turns below the cut are rewritten, the cut is the end unless the rest is small enough,
      and no smaller cut would do. */
  ghost predicate TurnsCutAt(env: Env, turns: seq<seq<Item>>, eligible: set<nat>, marks: seq<seq<Item>>,
                             threshold: int, cut: nat, result: seq<seq<Item>>)
  {
    && cut <= |turns| && RewrittenBelow(turns, eligible, marks, cut, result)
    && (Tokens(env, Flatten(result)) <= threshold || cut == |turns|)
    && forall c: nat, other | c < cut && RewrittenBelow(turns, eligible, marks, c, other) ::
         Tokens(env, Flatten(other)) > threshold
  }

  ghost predicate ItemsCutAt(env: Env, items: seq<Item>, eligible: set<nat>, marks: seq<Item>, threshold: int,
                             cut: nat, result: seq<Item>)
  {
    && cut <= |items| && RewrittenBelow(items, eligible, marks, cut, result)
    && (Tokens(env, result) <= threshold || cut == |items|)
    && forall c: nat, other | c < cut && RewrittenBelow(items, eligible, marks, c, other) ::
         Tokens(env, other) > threshold
  }

  lemma {:induction false} RewrittenIs<T>(items: seq<T>, cut: nat, may: (nat, T) -> bool, mark: (nat, T) -> T,
                                          eligible: set<nat>, marks: seq<T>, other: seq<T>)
    requires |marks| == |items|
    requires forall i: nat | i < |items| :: i in eligible <==> may(i, items[i])
    requires forall i: nat | i < |items| && i in eligible :: mark(i, items[i]) == marks[i]
    ensures RewrittenBelow(items, eligible, marks, cut, other) <==> other == Rewritten(items, cut, may, mark)
  {
    hide Rewritten;
  }

  // ----- L2

  /** The unprotected turns that only read. */
  function SnipSet(env: Env, turns: seq<seq<Item>>, tail: nat, active: Option<int>): set<nat> {
    set i: nat | i < |turns| && !StaysProtected(env, turns, tail, active, i) && MaySnip(env, turns[i], active)
  }

  function SnipMarks(env: Env, turns: seq<seq<Item>>): seq<seq<Item>> {
    seq(|turns|, i requires 0 <= i < |turns| => SnipMarker(env, i, turns[i]))
  }

  ghost predicate TurnsSnipped(env: Env, turns: seq<seq<Item>>, threshold: int, tail: nat, active: Option<int>,
                               result: seq<seq<Item>>)
  {
    exists cut :: TurnsCutAt(env, turns, SnipSet(env, turns, tail, active), SnipMarks(env, turns), threshold, cut,
                             result)
  }

  /** L2 leaves a history within the threshold, and one of at most two turns, as it is. */
  ghost predicate Snips(env: Env, before: seq<Item>, threshold: int, tail: nat, active: Option<int>, after: seq<Item>) {
    if Tokens(env, before) <= threshold then after == before
    else
      && Groups(before).Some?
      && if |Groups(before).value| <= 2 then after == before
         else exists result ::
           TurnsSnipped(env, Groups(before).value, threshold, tail, active, result) && after == Flatten(result)
  }

  lemma {:induction false} SnippableIs(env: Env, turns: seq<seq<Item>>, tail: nat, active: Option<int>, i: nat)
    requires i < |turns|
    ensures i in SnipSet(env, turns, tail, active)
            <==> Snippable(env, Protected(env, turns, tail, active), active)(i, turns[i])
    ensures SnipMarks(env, turns)[i] == SnipWith(env)(i, turns[i])
  {
    hide IsProtected, StaysProtected, ScoresSnip, MaySnip, SnipMarker;
    ProtectedIs(env, turns, tail, active, i);
    SnipRule(env, turns[i], active);
    if MaySnip(env, turns[i], active) { NoMarkerInside(env, turns[i], active); }
  }

  lemma {:induction false} NoMarkerInside(env: Env, turn: seq<Item>, active: Option<int>)
    requires MaySnip(env, turn, active)
    ensures !AnySnip(turn)
  {
    hide IsRepairState, SomeMentions, SomeUse, AllUsesRead, IsNow;
  }

  lemma {:induction false} SnipTurnsAre(env: Env, turns: seq<seq<Item>>, threshold: int, tail: nat, active: Option<int>)
    ensures TurnsSnipped(env, turns, threshold, tail, active, SnipTurns(env, turns, threshold, tail, active))
  {
    hide Snippable, SnipSet, SnipMarks, SnipWith, Rewritten, RewrittenBelow, Tokens, Flatten, Protected;
    var may, mark := Snippable(env, Protected(env, turns, tail, active), active), SnipWith(env);
    var eligible, marks := SnipSet(env, turns, tail, active), SnipMarks(env, turns);
    var cut := LeastCut(turns, 0, may, mark, TurnTokens(env), threshold);
    MarksCount(env, turns);
    forall i: nat | i < |turns| ensures (i in eligible <==> may(i, turns[i])) && mark(i, turns[i]) == marks[i] {
      SnippableIs(env, turns, tail, active, i);
    }
    CutIsLeast(env, turns, may, mark, eligible, marks, threshold, cut);
  }

  lemma {:induction false} MarksCount(env: Env, turns: seq<seq<Item>>)
    ensures |SnipMarks(env, turns)| == |turns| == |CollapseMarks(env, turns)|
  {
  }

  lemma {:induction false} CutIsLeast(env: Env, turns: seq<seq<Item>>, may: (nat, seq<Item>) -> bool,
                                      mark: (nat, seq<Item>) -> seq<Item>, eligible: set<nat>, marks: seq<seq<Item>>,
                                      threshold: int, cut: nat)
    requires |marks| == |turns|
    requires forall i: nat | i < |turns| :: i in eligible <==> may(i, turns[i])
    requires forall i: nat | i < |turns| && i in eligible :: mark(i, turns[i]) == marks[i]
    requires cut == LeastCut(turns, 0, may, mark, TurnTokens(env), threshold)
    ensures TurnsCutAt(env, turns, eligible, marks, threshold, cut, Rewritten(turns, cut, may, mark))
  {
    hide Rewritten, RewrittenBelow, Tokens, Flatten;
    RewrittenIs(turns, cut, may, mark, eligible, marks, Rewritten(turns, cut, may, mark));
    forall c: nat, other | c < cut && RewrittenBelow(turns, eligible, marks, c, other)
      ensures Tokens(env, Flatten(other)) > threshold
    {
      RewrittenIs(turns, c, may, mark, eligible, marks, other);
      assert TurnTokens(env)(Rewritten(turns, c, may, mark)) > threshold;
    }
    assert TurnTokens(env)(Rewritten(turns, cut, may, mark)) == Tokens(env, Flatten(Rewritten(turns, cut, may, mark)));
  }

  lemma {:induction false} SnipSnips(env: Env, history: seq<Item>, threshold: int, tail: nat, active: Option<int>)
    requires Groups(history).Some?
    ensures Snip(env, history, threshold, tail, active).Some?
            && Snips(env, history, threshold, tail, active, Snip(env, history, threshold, tail, active).value)
  {
    hide Groups, SnipTurns, TurnsSnipped, Tokens, Flatten;
    SnipTurnsAre(env, Groups(history).value, threshold, tail, active);
  }

  // ----- L4

  /** The unprotected turns worth folding. */
  function CollapseSet(env: Env, turns: seq<seq<Item>>, tail: nat, active: Option<int>): set<nat> {
    set i: nat | i < |turns| && !StaysProtected(env, turns, tail, active, i) && MayCollapse(env, turns[i], active)
  }

  function CollapseMarks(env: Env, turns: seq<seq<Item>>): seq<seq<Item>> {
    seq(|turns|, i requires 0 <= i < |turns| => CollapseMarker(env, i, turns[i]))
  }

  ghost predicate TurnsCollapsed(env: Env, turns: seq<seq<Item>>, threshold: int, tail: nat, active: Option<int>,
                                 result: seq<seq<Item>>)
  {
    exists cut ::
      TurnsCutAt(env, turns, CollapseSet(env, turns, tail, active), CollapseMarks(env, turns), threshold, cut, result)
  }

  /** L4 leaves a history within the threshold, and one of at most two turns, as it is. */
  ghost predicate Collapses(env: Env, before: seq<Item>, threshold: int, tail: nat, active: Option<int>,
                            after: seq<Item>)
  {
    if Tokens(env, before) <= threshold then after == before
    else
      && Groups(before).Some?
      && if |Groups(before).value| <= 2 then after == before
         else exists result ::
           TurnsCollapsed(env, Groups(before).value, threshold, tail, active, result) && after == Flatten(result)
  }

  lemma {:induction false} FoldableIs(env: Env, turns: seq<seq<Item>>, tail: nat, active: Option<int>, i: nat)
    requires i < |turns|
    ensures i in CollapseSet(env, turns, tail, active)
            <==> Foldable(env, Protected(env, turns, tail, active), active)(i, turns[i])
    ensures CollapseMarks(env, turns)[i] == CollapseWith(env)(i, turns[i])
  {
    hide IsProtected, StaysProtected, Collapsible, MayCollapse, CollapseMarker;
    ProtectedIs(env, turns, tail, active, i);
    CollapseRule(env, turns[i], active);
  }

  lemma {:induction false} CollapseTurnsAre(env: Env, turns: seq<seq<Item>>, threshold: int, tail: nat,
                                            active: Option<int>)
    ensures TurnsCollapsed(env, turns, threshold, tail, active, CollapseTurns(env, turns, threshold, tail, active))
  {
    hide Foldable, CollapseSet, CollapseMarks, CollapseWith, Rewritten, RewrittenBelow, Tokens, Flatten, Protected;
    var may, mark := Foldable(env, Protected(env, turns, tail, active), active), CollapseWith(env);
    var eligible, marks := CollapseSet(env, turns, tail, active), CollapseMarks(env, turns);
    var cut := LeastCut(turns, 0, may, mark, TurnTokens(env), threshold);
    MarksCount(env, turns);
    forall i: nat | i < |turns| ensures (i in eligible <==> may(i, turns[i])) && mark(i, turns[i]) == marks[i] {
      FoldableIs(env, turns, tail, active, i);
    }
    CutIsLeast(env, turns, may, mark, eligible, marks, threshold, cut);
  }

  lemma {:induction false} CollapseCollapses(env: Env, history: seq<Item>, threshold: int, tail: nat,
                                             active: Option<int>)
    requires Groups(history).Some?
    ensures Collapse(env, history, threshold, tail, active).Some?
            && Collapses(env, history, threshold, tail, active, Collapse(env, history, threshold, tail, active).value)
  {
    hide Groups, CollapseTurns, TurnsCollapsed, Tokens, Flatten;
    CollapseTurnsAre(env, Groups(history).value, threshold, tail, active);
  }

  // ----- L3

  predicate IsCounted(item: Item) { item.role == "tool" && !item.snip }

  function CountTools(history: seq<Item>, n: nat): nat
    requires n <= |history|
  {
    if n == 0 then 0 else CountTools(history, n - 1) + if IsCounted(history[n - 1]) then 1 else 0
  }

  /** Item `k` with its number, if it is counted. */
  function NumberedAt(history: seq<Item>, k: nat): Item
    requires k < |history|
  {
    if IsCounted(history[k]) then history[k].(refId := CountTools(history, k) + 1) else history[k]
  }

  /** Each tool item but the markers carries its number among them, from one. */
  ghost predicate Numbered(history: seq<Item>, working: seq<Item>) {
    && |working| == |history|
    && forall k | 0 <= k < |history| :: working[k] == NumberedAt(history, k)
  }

  function StubSet(env: Env, turns: seq<seq<Item>>, tail: nat, active: Option<int>, items: seq<Item>): set<nat> {
    set k: nat | k < |items| && MayStub(env, turns, tail, active, k, items[k])
  }

  function StubOf(env: Env, item: Item): Item {
    item.(content := Text(env.stubText(item.toolName, item.refId, env.countText(ContentText(env, item)),
                                       item.observationId)),
          compactRef := item.refId)
  }

  function StubMarks(env: Env, items: seq<Item>): seq<Item> {
    seq(|items|, k requires 0 <= k < |items| => StubOf(env, items[k]))
  }

  ghost predicate ItemsStubbed(env: Env, turns: seq<seq<Item>>, threshold: int, tail: nat, active: Option<int>,
                               working: seq<Item>, result: seq<Item>)
  {
    exists cut ::
      ItemsCutAt(env, working, StubSet(env, turns, tail, active, working), StubMarks(env, working), threshold, cut,
                 result)
  }

  /** L3 leaves a history within the threshold as it is. */
  ghost predicate Stubs(env: Env, before: seq<Item>, threshold: int, tail: nat, active: Option<int>, after: seq<Item>) {
    if Tokens(env, before) <= threshold then after == before
    else
      Groups(before).Some? && exists working ::
        && Numbered(before, working)
        && ItemsStubbed(env, Groups(before).value, threshold, tail, active, working, after)
  }

  lemma {:induction false} AssignUnfolds(history: seq<Item>, n: nat)
    requires n < |history|
    ensures AssignRefs(history[n..], CountTools(history, n))
         == [NumberedAt(history, n)] + AssignRefs(history[n + 1..], CountTools(history, n + 1))
  {
    assert history[n..][0] == history[n] && history[n..][1..] == history[n + 1..];
    assert CountTools(history, n + 1) == CountTools(history, n) + if IsCounted(history[n]) then 1 else 0;
    hide CountTools;
  }

  lemma {:induction false} AssignedAt(history: seq<Item>, n: nat, k: nat)
    requires n <= k < |history|
    ensures var rest := AssignRefs(history[n..], CountTools(history, n));
            |rest| == |history| - n && rest[k - n] == NumberedAt(history, k)
    decreases k - n
  {
    hide *;
    AssignUnfolds(history, n);
    AssignedCount(history[n..], CountTools(history, n));
    if n < k { AssignedAt(history, n + 1, k); }
  }

  lemma {:induction false} AssignedCount(history: seq<Item>, last: nat)
    ensures |AssignRefs(history, last)| == |history|
  {
    hide SameIds;
    RefsSameIds(history, last);
  }

  lemma {:induction false} RefsAreNumbers(history: seq<Item>)
    ensures Numbered(history, AssignRefs(history, 0))
  {
    hide AssignRefs, CountTools, NumberedAt;
    AssignedCount(history, 0);
    assert CountTools(history, 0) == 0 && history[0..] == history by { NothingCounted(history); }
    forall k | 0 <= k < |history|
      ensures AssignRefs(history, 0)[k] == NumberedAt(history, k)
    {
      AssignedAt(history, 0, k);
    }
  }

  lemma {:induction false} NothingCounted(history: seq<Item>)
    ensures CountTools(history, 0) == 0
  {
  }

  lemma {:induction false} CompactableIs(env: Env, history: seq<Item>, turns: seq<seq<Item>>, tail: nat,
                                         active: Option<int>, working: seq<Item>, k: nat)
    requires turns != [] && Numbered(history, working) && k < |working|
    ensures k in StubSet(env, turns, tail, active, working)
            <==> Compactable(env, turns, Protected(env, turns, tail, active))(k, working[k])
    ensures |StubMarks(env, working)| == |working|
    ensures k in StubSet(env, turns, tail, active, working) ==>
              StubMarks(env, working)[k] == CompactWith(env)(k, working[k])
  {
    hide MayStub, Compactable, Protected, ContentText, CountTools;
    StubRule(env, turns, tail, active, k, working[k]);
    assert working[k] == NumberedAt(history, k);
    if MayStub(env, turns, tail, active, k, working[k]) {
      StubbedIsPlain(env, turns, tail, active, k, working[k]);
      assert IsCounted(history[k]);
    }
  }

  lemma {:induction false} StubbedIsPlain(env: Env, turns: seq<seq<Item>>, tail: nat, active: Option<int>, k: nat,
                                          item: Item)
    requires MayStub(env, turns, tail, active, k, item)
    ensures item.role == "tool" && !item.snip && IsPlain(item)
  {
    hide IsRepairState, MentionsError, StandsIn, StaysProtected;
  }

  lemma {:induction false} ItemCutIsLeast(env: Env, items: seq<Item>, may: (nat, Item) -> bool,
                                          mark: (nat, Item) -> Item, eligible: set<nat>, marks: seq<Item>,
                                          threshold: int, cut: nat)
    requires |marks| == |items|
    requires forall i: nat | i < |items| :: i in eligible <==> may(i, items[i])
    requires forall i: nat | i < |items| && i in eligible :: mark(i, items[i]) == marks[i]
    requires cut == LeastCut(items, 0, may, mark, ItemTokens(env), threshold)
    ensures ItemsCutAt(env, items, eligible, marks, threshold, cut, Rewritten(items, cut, may, mark))
  {
    hide Rewritten, RewrittenBelow, Tokens;
    RewrittenIs(items, cut, may, mark, eligible, marks, Rewritten(items, cut, may, mark));
    forall c: nat, other | c < cut && RewrittenBelow(items, eligible, marks, c, other)
      ensures Tokens(env, other) > threshold
    {
      RewrittenIs(items, c, may, mark, eligible, marks, other);
      assert ItemTokens(env)(Rewritten(items, c, may, mark)) > threshold;
    }
    assert ItemTokens(env)(Rewritten(items, cut, may, mark)) == Tokens(env, Rewritten(items, cut, may, mark));
  }

  lemma {:induction false} StubMarksCount(env: Env, items: seq<Item>)
    ensures |StubMarks(env, items)| == |items|
  {
  }

  lemma {:induction false} MicrocompactStubs(env: Env, history: seq<Item>, threshold: int, tail: nat,
                                             active: Option<int>)
    requires Groups(history).Some?
    ensures Microcompact(env, history, threshold, tail, active).Some?
            && Stubs(env, history, threshold, tail, active, Microcompact(env, history, threshold, tail, active).value)
  {
    hide Groups, Tokens, AssignRefs, Numbered, Protected, Compactable, CompactWith, StubSet, StubMarks, Rewritten,
         RewrittenBelow;
    if Tokens(env, history) > threshold {
      var turns, working := Groups(history).value, AssignRefs(history, 0);
      var may, mark := Compactable(env, turns, Protected(env, turns, tail, active)), CompactWith(env);
      var eligible, marks := StubSet(env, turns, tail, active, working), StubMarks(env, working);
      RefsAreNumbers(history);
      AssignedCount(history, 0);
      StubMarksCount(env, working);
      GroupsAreInteractions(history);
      SomeTurns(history, turns);
      forall k: nat | k < |working|
        ensures k in eligible <==> may(k, working[k])
        ensures k in eligible ==> mark(k, working[k]) == marks[k]
      {
        CompactableIs(env, history, turns, tail, active, working, k);
      }
      var cut := LeastCut(working, 0, may, mark, ItemTokens(env), threshold);
      ItemCutIsLeast(env, working, may, mark, eligible, marks, threshold, cut);
      assert ItemsStubbed(env, turns, threshold, tail, active, working, Rewritten(working, cut, may, mark));
    }
  }

  lemma {:induction false} SomeTurns(history: seq<Item>, turns: seq<seq<Item>>)
    requires Flatten(turns) == history
    ensures history != [] ==> turns != []
  {
  }
}
