/** The rewriting stages L0 to L4 of the compression pipeline. */
module Compression {
  import opened Results
  import opened HistoryItems
  import opened Interactions
  import opened Rewriting
  import opened ToolTruncation
  import opened Sequences

  // ----- L0: dropping items that have no place in the window

  datatype TierPolicy = TierPolicy(
    allowedTools: set<string>,
    pinRoles: set<string>,
    pinFields: seq<string>,
    dropRejectedTools: bool,
    dropEmptyContent: bool,
    dropLowValueSystem: bool,
    currentTurn: Option<int>,
    protectCurrentTurn: bool)

  function RejectedMarkers(): seq<string> {
    ["不在允许列表中", "不可用。", "未注册。", "重复调用检测", "超出配额限制", "参数校验失败", "审批被拒绝"]
  }

  function PinnedErrors(): seq<string> { ["Traceback", "Fail", "FAILED", "error:"] }

  predicate AllowsTool(policy: TierPolicy, toolName: string) {
    policy.allowedTools == {} || toolName == "" || toolName in policy.allowedTools
  }

  predicate IsRejectedToolContent(env: Env, content: string) {
    StartsWith(env.strip(content), "Error:") && ContainsAny(env.strip(content), RejectedMarkers())
  }

  function Take(text: string, n: nat): string { if |text| <= n then text else text[..n] }

  predicate MentionsPinField(env: Env, content: string, pinField: string) {
    Contains(Take(content, 50), pinField) || Contains(Take(env.lower(content), 200), "\n" + pinField + ":")
  }

  predicate IsPinned(env: Env, policy: TierPolicy, item: Item) {
    var content := ContentText(env, item);
    || item.role in policy.pinRoles
    || ContainsAny(content, ["[Earlier summary]"] + policy.pinFields)
    || (exists i | 0 <= i < |policy.pinFields| :: MentionsPinField(env, content, policy.pinFields[i]))
    || ContainsAny(content, PinnedErrors())
    || item.snip || item.collapsed
    || (policy.protectCurrentTurn && policy.currentTurn.Some? && item.turnId == policy.currentTurn)
  }

  predicate IsLowValue(env: Env, content: string) {
    Contains(env.strip(content), "工具调用格式错误")
  }

  predicate Keeps(env: Env, policy: TierPolicy, item: Item) {
    var content := ContentText(env, item);
    if item.role == "tool"
       && (!AllowsTool(policy, item.toolName)
           || (policy.dropRejectedTools && IsRejectedToolContent(env, content))) then false
    else if IsPinned(env, policy, item) then true
    else if policy.dropEmptyContent && env.strip(content) == "" then false
    else !(policy.dropLowValueSystem && item.role == "system" && IsLowValue(env, content))
  }

  function Filter(env: Env, policy: TierPolicy, items: seq<Item>): seq<Item> {
    if items == [] then []
    else (if Keeps(env, policy, items[0]) then [items[0]] else []) + Filter(env, policy, items[1..])
  }

  method FilterHistory(env: Env, policy: TierPolicy, items: seq<Item>) returns (kept: seq<Item>, dropped: nat)
    ensures kept == Filter(env, policy, items)
    ensures |kept| + dropped == |items|
  {
    hide IsPinned, IsRejectedToolContent, AllowsTool, IsLowValue, ContentText, Filter;
    kept, dropped := [], 0;
    assert items[0..] == items;
    for k := 0 to |items|
      invariant Filter(env, policy, items) == kept + Filter(env, policy, items[k..])
      invariant |kept| + dropped == k
    {
      FilterStep(env, policy, items, k, kept);
      var item := items[k];
      var content := ContentText(env, item);
      if item.role == "tool" {
        if !AllowsTool(policy, item.toolName) { dropped := dropped + 1; continue; }
        if policy.dropRejectedTools && IsRejectedToolContent(env, content) { dropped := dropped + 1; continue; }
      }
      if IsPinned(env, policy, item) { kept := kept + [item]; continue; }
      if policy.dropEmptyContent && env.strip(content) == "" { dropped := dropped + 1; continue; }
      if policy.dropLowValueSystem && item.role == "system" && IsLowValue(env, content) {
        dropped := dropped + 1;
        continue;
      }
      kept := kept + [item];
    }
    FilterNothing(env, policy, items, kept);
  }

  lemma {:induction false} FilterStep(env: Env, policy: TierPolicy, items: seq<Item>, k: nat, kept: seq<Item>)
    requires k < |items|
    ensures kept + Filter(env, policy, items[k..])
            == (if Keeps(env, policy, items[k]) then kept + [items[k]] else kept) + Filter(env, policy, items[k + 1..])
  {
    hide Keeps;
    assert items[k..][0] == items[k] && items[k..][1..] == items[k + 1..];
  }

  lemma {:induction false} FilterNothing(env: Env, policy: TierPolicy, items: seq<Item>, kept: seq<Item>)
    ensures kept + Filter(env, policy, items[|items|..]) == kept
  {
  }

  predicate HasRepairState(group: seq<Item>) {
    exists i | 0 <= i < |group| :: IsRepairState(group[i])
  }

  /** A group with a call or a repair state is kept whole; any other is filtered item by item. */
  function GuardGroup(env: Env, policy: TierPolicy, group: seq<Item>): seq<Item> {
    if HasToolCall(group) || HasRepairState(group) then group else Filter(env, policy, group)
  }

  function GuardGroups(env: Env, policy: TierPolicy, groups: seq<seq<Item>>): seq<seq<Item>> {
    if groups == [] then [] else [GuardGroup(env, policy, groups[0])] + GuardGroups(env, policy, groups[1..])
  }

  /** None stands for a refused history. */
  function TierGuard(env: Env, policy: TierPolicy, history: seq<Item>): Option<seq<Item>> {
    match Groups(history)
    case None => None
    case Some(groups) => Some(Flatten(GuardGroups(env, policy, groups)))
  }

  method L0TierGuard(env: Env, policy: TierPolicy, history: seq<Item>) returns (r: Option<seq<Item>>)
    ensures r == TierGuard(env, policy, history)
  {
    hide HasToolCall, HasRepairState, Filter, Groups, GuardGroups, Flatten;
    var grouped := InteractionGroups(history);
    if grouped.None? { return None; }
    var groups := grouped.value;
    var filtered: seq<Item> := [];
    assert groups[0..] == groups;
    for k := 0 to |groups|
      invariant Flatten(GuardGroups(env, policy, groups)) == filtered + Flatten(GuardGroups(env, policy, groups[k..]))
    {
      GuardStep(env, policy, groups, k, filtered);
      var group := groups[k];
      if HasToolCall(group) || HasRepairState(group) {
        filtered := filtered + group;
      } else {
        var kept, _ := FilterHistory(env, policy, group);
        filtered := filtered + kept;
      }
    }
    GuardNothing(env, policy, groups, filtered);
    return Some(filtered);
  }

  lemma {:induction false} GuardStep(env: Env, policy: TierPolicy, groups: seq<seq<Item>>, k: nat, done: seq<Item>)
    requires k < |groups|
    ensures done + Flatten(GuardGroups(env, policy, groups[k..]))
            == done + GuardGroup(env, policy, groups[k]) + Flatten(GuardGroups(env, policy, groups[k + 1..]))
  {
    hide GuardGroup;
    assert groups[k..][0] == groups[k] && groups[k..][1..] == groups[k + 1..];
    var rest := GuardGroups(env, policy, groups[k + 1..]);
    assert ([GuardGroup(env, policy, groups[k])] + rest)[1..] == rest;
  }

  lemma {:induction false} GuardNothing(env: Env, policy: TierPolicy, groups: seq<seq<Item>>, done: seq<Item>)
    ensures done + Flatten(GuardGroups(env, policy, groups[|groups|..])) == done
  {
  }

  // ----- L1: truncating tool results

  function Truncated(env: Env, item: Item): Item {
    if item.role != "tool" || IsRepairState(item) || item.content.Blocks? || item.toolCallId != "" then item
    else item.(content := Text(Truncate(env, item.content.text, item.toolName)))
  }

  function TruncateAll(env: Env, history: seq<Item>): seq<Item> {
    if history == [] then [] else [Truncated(env, history[0])] + TruncateAll(env, history[1..])
  }

  method L1BudgetReduction(env: Env, history: seq<Item>) returns (r: seq<Item>)
    ensures r == TruncateAll(env, history)
  {
    hide IsRepairState, Truncate;
    r := [];
    assert history[0..] == history;
    for k := 0 to |history|
      invariant r + TruncateAll(env, history[k..]) == TruncateAll(env, history)
    {
      TruncateStep(env, history, k, r);
      var item := history[k];
      if item.role != "tool" || IsRepairState(item) || item.content.Blocks? || item.toolCallId != "" {
        r := r + [item];
        continue;
      }
      var truncated := TruncateToolContent(env, item.content.text, item.toolName);
      r := r + [item.(content := Text(truncated))];
    }
  }

  lemma {:induction false} TruncateStep(env: Env, history: seq<Item>, k: nat, done: seq<Item>)
    requires k < |history|
    ensures done + TruncateAll(env, history[k..])
         == done + [Truncated(env, history[k])] + TruncateAll(env, history[k + 1..])
  {
    hide Truncated;
    assert history[k..][0] == history[k] && history[k..][1..] == history[k + 1..];
  }

  // ----- the protected tail

  const PROTECT_RECENT_TURNS := 2

  /** The number of turns before the protected tail, going back from `i` with `count` tokens kept. */
  function TailStart(env: Env, turns: seq<seq<Item>>, tail: nat, i: nat, count: nat): (start: nat)
    requires i <= |turns|
    ensures start <= i
  {
    if i == 0 || count >= tail then i
    else if count + Tokens(env, turns[i - 1]) > tail then i - 1
    else TailStart(env, turns, tail, i - 1, count + Tokens(env, turns[i - 1]))
  }

  predicate IsProtected(env: Env, turns: seq<seq<Item>>, tail: nat, active: Option<int>, i: nat)
    requires i < |turns|
  {
    || IsCurrentTurn(turns[i], active)
    || i + PROTECT_RECENT_TURNS >= |turns|
    || i >= TailStart(env, turns, tail, |turns|, 0)
  }

  function Protected(env: Env, turns: seq<seq<Item>>, tail: nat, active: Option<int>): set<nat> {
    set i: nat | i < |turns| && IsProtected(env, turns, tail, active, i)
  }

  method ProtectedTurnIndices(env: Env, turns: seq<seq<Item>>, tail: nat, active: Option<int>) returns (r: set<nat>)
    ensures r == Protected(env, turns, tail, active)
  {
    hide IsCurrentTurn, Tokens;
    r := {};
    var n := |turns|;
    if n == 0 { return; }
    if active.Some? {
      for i: nat := 0 to n
        invariant forall j: nat :: j in r <==> j < i && IsCurrentTurn(turns[j], active)
      {
        if IsCurrentTurn(turns[i], active) { r := r + {i}; }
      }
    } else {
      NoCurrentTurn(turns);
    }
    var recent: nat := if n > PROTECT_RECENT_TURNS then n - PROTECT_RECENT_TURNS else 0;
    for i: nat := recent to n
      invariant forall j: nat :: j in r <==> (j < n && IsCurrentTurn(turns[j], active)) || recent <= j < i
    {
      r := r + {i};
    }
    var i: nat, count: nat := n, 0;
    while i > 0
      invariant i <= n
      invariant TailStart(env, turns, tail, n, 0) == TailStart(env, turns, tail, i, count)
      invariant forall j: nat :: j in r <==> (j < n && IsCurrentTurn(turns[j], active)) || recent <= j < n || i <= j < n
    {
      var tokens := Tokens(env, turns[i - 1]);
      if count >= tail { break; }
      i := i - 1;
      r := r + {i};
      if count + tokens > tail {
        assert TailStart(env, turns, tail, n, 0) == i;
        return;
      }
      count := count + tokens;
    }
  }

  lemma {:induction false} NoCurrentTurn(turns: seq<seq<Item>>)
    ensures forall i | 0 <= i < |turns| :: !IsCurrentTurn(turns[i], None)
  {
  }

  // ----- L2: snipping read-only turns

  function ProtectedKeywords(): seq<string> { ["Error", "Traceback", "Fail", "FAILED", "error:"] }

  function ToolNames(turn: seq<Item>): seq<string> {
    if turn == [] then []
    else
      (if turn[0].snip then []
       else if turn[0].role == "tool" then [if turn[0].toolName == "" then "tool" else turn[0].toolName]
       else if turn[0].role == "assistant" && turn[0].toolName != "" then [turn[0].toolName]
       else []) + ToolNames(turn[1..])
  }

  function JoinedContent(env: Env, turn: seq<Item>): string {
    if turn == [] then ""
    else if |turn| == 1 then ContentText(env, turn[0])
    else ContentText(env, turn[0]) + "\n" + JoinedContent(env, turn[1..])
  }

  function ReadonlyTools(): set<string> { {"list_files", "read_file", "grep"} }

  function HighValueTools(): set<string> { {"write_file", "patch_file", "run_shell"} }

  predicate AnySnip(turn: seq<Item>) { exists i | 0 <= i < |turn| :: turn[i].snip }

  /** score_turn(...) == "snip" */
  predicate ScoresSnip(env: Env, turn: seq<Item>, active: Option<int>) {
    && !IsCurrentTurn(turn, active) && !AnySnip(turn) && !HasRepairState(turn)
    && !ContainsAny(JoinedContent(env, turn), ProtectedKeywords())
    && var names := ToolNames(turn);
    && (forall i | 0 <= i < |names| :: names[i] !in HighValueTools())
    && names != [] && (forall i | 0 <= i < |names| :: names[i] in ReadonlyTools())
  }

  function BlankItem(role: string, text: string): Item {
    Item(role, Text(text), "", [], "", None, false, false, false, 0, 0, "", false, 0, 0)
  }

  function SnipMarker(env: Env, i: nat, turn: seq<Item>): seq<Item> {
    [BlankItem("system", "[snipped turn " + env.snipText(i, turn) + "]").(snip := true)]
  }

  function Snippable(env: Env, protected: set<nat>, active: Option<int>): (nat, seq<Item>) -> bool {
    (i: nat, turn: seq<Item>) => i !in protected && !AnySnip(turn) && ScoresSnip(env, turn, active)
  }

  function SnipWith(env: Env): (nat, seq<Item>) -> seq<Item> {
    (i: nat, turn: seq<Item>) => SnipMarker(env, i, turn)
  }

  function TurnTokens(env: Env): seq<seq<Item>> -> nat {
    turns => Tokens(env, Flatten(turns))
  }

  /** The turns after snipping: the oldest eligible ones are markers, the others are untouched. */
  function SnipTurns(env: Env, turns: seq<seq<Item>>, threshold: int, tail: nat, active: Option<int>): seq<seq<Item>> {
    var eligible := Snippable(env, Protected(env, turns, tail, active), active);
    Rewritten(turns, LeastCut(turns, 0, eligible, SnipWith(env), TurnTokens(env), threshold), eligible, SnipWith(env))
  }

  function Snip(env: Env, history: seq<Item>, threshold: int, tail: nat, active: Option<int>): Option<seq<Item>> {
    if Tokens(env, history) <= threshold then Some(history)
    else
      match Groups(history)
      case None => None
      case Some(turns) =>
        if |turns| <= PROTECT_RECENT_TURNS then Some(history)
        else Some(Flatten(SnipTurns(env, turns, threshold, tail, active)))
  }

  lemma {:induction false} MarkersNotSnippable(env: Env, protected: set<nat>, active: Option<int>)
    ensures forall i: nat, turn: seq<Item> :: !Snippable(env, protected, active)(i, SnipWith(env)(i, turn))
  {
    hide ScoresSnip;
    forall i: nat, turn: seq<Item> ensures AnySnip(SnipMarker(env, i, turn)) {
      assert SnipMarker(env, i, turn)[0].snip;
    }
  }

  method L2Snip(env: Env, history: seq<Item>, threshold: int, tail: nat, active: Option<int>)
    returns (r: Option<seq<Item>>)
    ensures r == Snip(env, history, threshold, tail, active)
  {
    hide Groups, ScoresSnip, AnySnip, SnipMarker;
    if Tokens(env, history) <= threshold { return Some(history); }
    var turns := InteractionGroups(history);
    if turns.None? { return None; }
    if |turns.value| <= PROTECT_RECENT_TURNS { return Some(history); }
    var protected := ProtectedTurnIndices(env, turns.value, tail, active);
    MarkersNotSnippable(env, protected, active);
    var working := RewriteOldest(turns.value, Snippable(env, protected, active), SnipWith(env), TurnTokens(env),
                                 threshold);
    return Some(Flatten(working));
  }

  // ----- L3: replacing old tool bodies by stubs

  function TurnOf(turns: seq<seq<Item>>, index: nat): nat {
    if |turns| <= 1 || index < |turns[0]| then 0 else 1 + TurnOf(turns[1..], index - |turns[0]|)
  }

  /** Position `index` of the flat history stands in turn `r`, or behind all turns. */
  predicate StandsIn(turns: seq<seq<Item>>, index: nat, r: nat) {
    && r < |turns|
    && (index < |Flatten(turns)| ==>
          var start := |Flatten(turns[..r])|;
          start <= index < start + |turns[r]| && Flatten(turns)[index] == turns[r][index - start])
    && (index >= |Flatten(turns)| ==> r == |turns| - 1)
  }

  lemma {:induction false} TurnOfLocates(turns: seq<seq<Item>>, index: nat)
    requires turns != []
    ensures StandsIn(turns, index, TurnOf(turns, index))
  {
    var rest := turns[1..];
    FlattenUnfold(turns);
    assert Flatten([]) == [];
    if index < |turns[0]| {
      assert turns[..0] == [];
    } else if rest == [] {
      assert turns[..0] == [];
    } else {
      var r := TurnOf(rest, index - |turns[0]|);
      TurnOfLocates(rest, index - |turns[0]|);
      hide Flatten, TurnOf;
      assert TurnOf(turns, index) == 1 + r by { TurnOfRest(turns, index); }
      FlattenUnfold(turns[..r + 1]);
      assert turns[..r + 1][1..] == rest[..r];
    }
  }

  lemma {:induction false} TurnOfRest(turns: seq<seq<Item>>, index: nat)
    requires |turns| > 1 && index >= |turns[0]|
    ensures TurnOf(turns, index) == 1 + TurnOf(turns[1..], index - |turns[0]|)
  {
  }

  method FlatIndexToTurn(index: nat, turns: seq<seq<Item>>) returns (r: nat)
    ensures r == TurnOf(turns, index)
    ensures if turns == [] then r == 0 else StandsIn(turns, index, r)
  {
    hide Flatten, StandsIn;
    if turns == [] { return 0; }
    TurnOfLocates(turns, index);
    var offset := 0;
    assert turns[0..] == turns;
    for k := 0 to |turns|
      invariant offset <= index
      invariant k < |turns| ==> TurnOf(turns, index) == k + TurnOf(turns[k..], index - offset)
      invariant k == |turns| ==> TurnOf(turns, index) == |turns| - 1
    {
      assert turns[k..][0] == turns[k] && turns[k..][1..] == turns[k + 1..];
      if index < offset + |turns[k]| { return k; }
      offset := offset + |turns[k]|;
    }
    return |turns| - 1;
  }

  /** Tool items numbered from 1 in order, except snip markers. */
  function AssignRefs(history: seq<Item>, last: nat): seq<Item> {
    if history == [] then []
    else if history[0].role != "tool" || history[0].snip then [history[0]] + AssignRefs(history[1..], last)
    else [history[0].(refId := last + 1)] + AssignRefs(history[1..], last + 1)
  }

  lemma {:induction false} AssignStep(done: seq<Item>, history: seq<Item>, k: nat, last: nat)
    requires k < |history|
    ensures var tool := history[k].role == "tool" && !history[k].snip;
            done + AssignRefs(history[k..], last)
            == done + [if tool then history[k].(refId := last + 1) else history[k]]
               + AssignRefs(history[k + 1..], if tool then last + 1 else last)
  {
    assert history[k..][0] == history[k] && history[k..][1..] == history[k + 1..];
  }

  method AssignToolRefIds(history: seq<Item>) returns (r: seq<Item>)
    ensures r == AssignRefs(history, 0)
  {
    r := [];
    var refId := 0;
    for k := 0 to |history|
      invariant r + AssignRefs(history[k..], refId) == AssignRefs(history, 0)
    {
      var item := history[k];
      AssignStep(r, history, k, refId);
      if item.role != "tool" || item.snip { r := r + [item]; continue; }
      refId := refId + 1;
      r := r + [item.(refId := refId)];
    }
  }

  predicate HasProtectedContent(env: Env, item: Item) {
    ContainsAny(ContentText(env, item), ProtectedKeywords())
  }

  function Compactable(env: Env, turns: seq<seq<Item>>, protected: set<nat>): (nat, Item) -> bool {
    (i: nat, item: Item) =>
      && item.role == "tool"
      && !IsRepairState(item) && item.content.Text? && item.toolCallId == ""
      && !item.snip && item.compactRef == 0
      && TurnOf(turns, i) !in protected
      && !HasProtectedContent(env, item)
  }

  function CompactWith(env: Env): (nat, Item) -> Item {
    (i: nat, item: Item) =>
      var ref := if item.refId == 0 then i + 1 else item.refId;
      var original := ContentText(env, item);
      item.(content := Text(env.stubText(item.toolName, ref, env.countText(original), item.observationId)),
            compactRef := ref)
  }

  function ItemTokens(env: Env): seq<Item> -> nat {
    items => Tokens(env, items)
  }

  function Microcompact(env: Env, history: seq<Item>, threshold: int, tail: nat,
                        active: Option<int>): Option<seq<Item>> {
    if Tokens(env, history) <= threshold then Some(history)
    else
      match Groups(history)
      case None => None
      case Some(turns) =>
        var eligible := Compactable(env, turns, Protected(env, turns, tail, active));
        var working := AssignRefs(history, 0);
        Some(Rewritten(working, LeastCut(working, 0, eligible, CompactWith(env), ItemTokens(env), threshold),
                       eligible, CompactWith(env)))
  }

  method L3Microcompact(env: Env, history: seq<Item>, threshold: int, tail: nat, active: Option<int>)
    returns (r: Option<seq<Item>>)
    ensures r == Microcompact(env, history, threshold, tail, active)
  {
    hide Groups, IsRepairState, HasProtectedContent;
    if Tokens(env, history) <= threshold { return Some(history); }
    var turns := InteractionGroups(history);
    if turns.None? { return None; }
    var protected := ProtectedTurnIndices(env, turns.value, tail, active);
    var working := AssignToolRefIds(history);
    working := RewriteOldest(working, Compactable(env, turns.value, protected), CompactWith(env), ItemTokens(env),
                             threshold);
    return Some(working);
  }

  // ----- L4: collapsing old turns

  const COLLAPSE_MIN_TOKENS := 40

  predicate Collapsible(env: Env, turn: seq<Item>, active: Option<int>) {
    && !IsCurrentTurn(turn, active)
    && (forall i | 0 <= i < |turn| :: !turn[i].snip && !turn[i].collapsed)
    && (forall i | 0 <= i < |turn| :: !IsRepairState(turn[i]) && !IsSummary(turn[i]))
    && (forall i | 0 <= i < |turn| :: !HasProtectedContent(env, turn[i]))
    && Tokens(env, turn) >= COLLAPSE_MIN_TOKENS
  }

  function CollapseMarker(env: Env, i: nat, turn: seq<Item>): seq<Item> {
    [BlankItem("system", "[collapsed turn " + env.collapseText(i, turn) + "]").(collapsed := true)]
  }

  function Foldable(env: Env, protected: set<nat>, active: Option<int>): (nat, seq<Item>) -> bool {
    (i: nat, turn: seq<Item>) => i !in protected && Collapsible(env, turn, active)
  }

  function CollapseWith(env: Env): (nat, seq<Item>) -> seq<Item> {
    (i: nat, turn: seq<Item>) => CollapseMarker(env, i, turn)
  }

  function CollapseTurns(env: Env, turns: seq<seq<Item>>, threshold: int, tail: nat,
                         active: Option<int>): seq<seq<Item>> {
    var eligible := Foldable(env, Protected(env, turns, tail, active), active);
    Rewritten(turns, LeastCut(turns, 0, eligible, CollapseWith(env), TurnTokens(env), threshold), eligible,
              CollapseWith(env))
  }

  function Collapse(env: Env, history: seq<Item>, threshold: int, tail: nat, active: Option<int>): Option<seq<Item>> {
    if Tokens(env, history) <= threshold then Some(history)
    else
      match Groups(history)
      case None => None
      case Some(turns) =>
        if |turns| <= PROTECT_RECENT_TURNS then Some(history)
        else Some(Flatten(CollapseTurns(env, turns, threshold, tail, active)))
  }

  lemma {:induction false} MarkersNotFoldable(env: Env, protected: set<nat>, active: Option<int>)
    ensures forall i: nat, turn: seq<Item> :: !Foldable(env, protected, active)(i, CollapseWith(env)(i, turn))
  {
    forall i: nat, turn: seq<Item> ensures !Collapsible(env, CollapseMarker(env, i, turn), active) {
      assert CollapseMarker(env, i, turn)[0].collapsed;
    }
  }

  method L4Collapse(env: Env, history: seq<Item>, threshold: int, tail: nat, active: Option<int>)
    returns (r: Option<seq<Item>>)
    ensures r == Collapse(env, history, threshold, tail, active)
  {
    hide Groups, Collapsible, CollapseMarker;
    if Tokens(env, history) <= threshold { return Some(history); }
    var turns := InteractionGroups(history);
    if turns.None? { return None; }
    if |turns.value| <= PROTECT_RECENT_TURNS { return Some(history); }
    var protected := ProtectedTurnIndices(env, turns.value, tail, active);
    MarkersNotFoldable(env, protected, active);
    var working := RewriteOldest(turns.value, Foldable(env, protected, active), CollapseWith(env), TurnTokens(env),
                                 threshold);
    return Some(Flatten(working));
  }
}
