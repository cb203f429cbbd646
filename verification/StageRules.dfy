/** Which items and turns the rewriting stages may touch, stated item by item. */
module StageRules {
  import opened Results
  import opened HistoryItems
  import opened Sequences
  import opened Compression
  import opened CompressionLaws

  // ----- the current turn, and the protected ones

  /** The first turn number the turn carries is the active one. */
  predicate IsNow(turn: seq<Item>, active: Option<int>) {
    active.Some? && exists u | 0 <= u < |turn| ::
      turn[u].turnId == active && forall v | 0 <= v < u :: turn[v].turnId.None?
  }

  lemma {:induction false} FirstTurnId(turn: seq<Item>) returns (u: nat)
    ensures TurnIdOf(turn).None? ==> forall v | 0 <= v < |turn| :: turn[v].turnId.None?
    ensures TurnIdOf(turn).Some? ==>
              u < |turn| && turn[u].turnId == TurnIdOf(turn) && forall v | 0 <= v < u :: turn[v].turnId.None?
  {
    u := 0;
    if turn != [] && turn[0].turnId.None? {
      var w := FirstTurnId(turn[1..]);
      assert forall v | 0 < v < |turn| :: turn[v] == turn[1..][v - 1];
      u := w + 1;
    }
  }

  lemma {:induction false} CurrentTurnIs(turn: seq<Item>, active: Option<int>)
    ensures IsCurrentTurn(turn, active) <==> IsNow(turn, active)
  {
    var u := FirstTurnId(turn);
    hide TurnIdOf;
  }

  /** The current turn, the last two, and every turn with less than the allowance behind it. */
  predicate StaysProtected(env: Env, turns: seq<seq<Item>>, tail: nat, active: Option<int>, i: nat)
    requires i < |turns|
  {
    IsNow(turns[i], active) || i + 2 >= |turns| || SuffixTokens(env, turns, i + 1) < tail
  }

  lemma {:induction false} SuffixShrinks(env: Env, turns: seq<seq<Item>>, i: nat, j: nat)
    requires i <= j <= |turns|
    ensures SuffixTokens(env, turns, i) >= SuffixTokens(env, turns, j)
    decreases j - i
  {
    hide Tokens;
    if i < j { SuffixShrinks(env, turns, i + 1, j); }
  }

  lemma {:induction false} ProtectedIs(env: Env, turns: seq<seq<Item>>, tail: nat, active: Option<int>, i: nat)
    requires i < |turns|
    ensures IsProtected(env, turns, tail, active, i) <==> StaysProtected(env, turns, tail, active, i)
  {
    hide IsCurrentTurn, IsNow, Tokens, TailStart;
    CurrentTurnIs(turns[i], active);
    TailIsShortest(env, turns, tail, |turns|);
    var start := TailStart(env, turns, tail, |turns|, 0);
    if i < start { SuffixShrinks(env, turns, i + 1, start); }
  }

  // ----- L2

  /** A word of an error report: no turn and no tool text with one is taken away. */
  predicate MentionsError(text: string) {
    || Contains(text, "Error") || Contains(text, "Traceback") || Contains(text, "Fail") || Contains(text, "FAILED")
    || Contains(text, "error:")
  }

  lemma {:induction false} MentionsErrorIs(text: string)
    ensures ContainsAny(text, ProtectedKeywords()) <==> MentionsError(text)
  {
    hide Contains;
    var words := ProtectedKeywords();
    assert words[0] == "Error" && words[1] == "Traceback" && words[2] == "Fail" && words[3] == "FAILED"
           && words[4] == "error:" && |words| == 5;
  }

  lemma {:induction false} ContainsAt(text: string, needle: string, i: nat)
    requires i + |needle| <= |text| && text[i..i + |needle|] == needle
    ensures Contains(text, needle)
  {
    assert text[i..][..|needle|] == text[i..i + |needle|];
    assert StartsWith(text[i..], needle);
  }

  lemma {:induction false} ContainedAt(text: string, needle: string) returns (i: nat)
    requires Contains(text, needle)
    ensures i + |needle| <= |text| && text[i..i + |needle|] == needle
  {
    i :| 0 <= i <= |text| && StartsWith(text[i..], needle);
    assert text[i..][..|needle|] == text[i..i + |needle|];
  }

  /** A word without a newline stands in two lines exactly when it stands in one of them. */
  lemma {:induction false} ContainsInLines(a: string, b: string, needle: string)
    requires '\n' !in needle && needle != ""
    ensures Contains(a + "\n" + b, needle) <==> Contains(a, needle) || Contains(b, needle)
  {
    hide Contains;
    var text := a + "\n" + b;
    assert text[..|a|] == a && text[|a| + 1..] == b && text[|a|] == '\n';
    if Contains(text, needle) {
      var i := ContainedAt(text, needle);
      forall k | i <= k < i + |needle| ensures text[k] in needle { assert text[k] == text[i..i + |needle|][k - i]; }
      if i + |needle| <= |a| {
        assert a[i..i + |needle|] == text[i..i + |needle|];
        ContainsAt(a, needle, i);
      } else {
        assert b[i - |a| - 1..i - |a| - 1 + |needle|] == text[i..i + |needle|];
        ContainsAt(b, needle, i - |a| - 1);
      }
    }
    if Contains(a, needle) {
      var i := ContainedAt(a, needle);
      assert text[i..i + |needle|] == a[i..i + |needle|];
      ContainsAt(text, needle, i);
    }
    if Contains(b, needle) {
      var i := ContainedAt(b, needle);
      assert text[|a| + 1 + i..|a| + 1 + i + |needle|] == b[i..i + |needle|];
      ContainsAt(text, needle, |a| + 1 + i);
    }
  }

  lemma {:induction false} MentionsInLines(a: string, b: string)
    ensures MentionsError(a + "\n" + b) <==> MentionsError(a) || MentionsError(b)
  {
    hide Contains;
    ContainsInLines(a, b, "Error");
    ContainsInLines(a, b, "Traceback");
    ContainsInLines(a, b, "Fail");
    ContainsInLines(a, b, "FAILED");
    ContainsInLines(a, b, "error:");
  }

  lemma {:induction false} NothingMentions()
    ensures !MentionsError("")
  {
    forall needle | needle != "" ensures !Contains("", needle) {
      if Contains("", needle) { var i := ContainedAt("", needle); }
    }
  }

  predicate SomeMentions(env: Env, turn: seq<Item>) {
    exists u | 0 <= u < |turn| :: MentionsError(ContentText(env, turn[u]))
  }

  lemma {:induction false} JoinedMentions(env: Env, turn: seq<Item>)
    ensures MentionsError(JoinedContent(env, turn)) <==> SomeMentions(env, turn)
  {
    hide MentionsError, ContentText;
    NothingMentions();
    if |turn| > 1 {
      var rest := turn[1..];
      JoinedMentions(env, rest);
      MentionsInLines(ContentText(env, turn[0]), JoinedContent(env, rest));
      assert forall u | 0 <= u < |rest| :: rest[u] == turn[u + 1];
      assert forall u | 0 < u < |turn| :: turn[u] == rest[u - 1];
    }
  }

  predicate UsesTool(item: Item) { item.role == "tool" || (item.role == "assistant" && item.toolName != "") }

  predicate ReadsOnly(item: Item) {
    item.toolName == "list_files" || item.toolName == "read_file" || item.toolName == "grep"
  }

  predicate SomeUse(turn: seq<Item>) { exists u | 0 <= u < |turn| :: UsesTool(turn[u]) }

  predicate AllUsesRead(turn: seq<Item>) {
    forall u | 0 <= u < |turn| && UsesTool(turn[u]) :: ReadsOnly(turn[u])
  }

  predicate AllReadonly(names: seq<string>) { forall i | 0 <= i < |names| :: names[i] in ReadonlyTools() }

  /** Some tool is used in the turn, every one only reads, and nothing in it is a marker, a state record or
      mentions an error; and it is not the current turn. */
  predicate MaySnip(env: Env, turn: seq<Item>, active: Option<int>) {
    && !IsNow(turn, active)
    && (forall u | 0 <= u < |turn| :: !turn[u].snip && !IsRepairState(turn[u]))
    && !SomeMentions(env, turn)
    && SomeUse(turn) && AllUsesRead(turn)
  }

  lemma {:induction false} UsesUnfold(turn: seq<Item>)
    requires turn != []
    ensures SomeUse(turn) <==> UsesTool(turn[0]) || SomeUse(turn[1..])
    ensures AllUsesRead(turn) <==> (UsesTool(turn[0]) ==> ReadsOnly(turn[0])) && AllUsesRead(turn[1..])
  {
    hide UsesTool, ReadsOnly;
    var rest := turn[1..];
    assert forall u | 0 <= u < |rest| :: rest[u] == turn[u + 1];
    assert forall u | 0 < u < |turn| :: turn[u] == rest[u - 1];
  }

  /** Without markers the tools named in a turn are those its items use. */
  lemma {:induction false} ToolNamesAre(turn: seq<Item>)
    requires forall u | 0 <= u < |turn| :: !turn[u].snip
    ensures ToolNames(turn) != [] <==> SomeUse(turn)
    ensures AllReadonly(ToolNames(turn)) <==> AllUsesRead(turn)
  {
    hide SomeUse, AllUsesRead, AllReadonly;
    if turn == [] {
      NoUses();
    } else {
      assert forall u | 0 <= u < |turn[1..]| :: turn[1..][u] == turn[u + 1];
      ToolNamesAre(turn[1..]);
      UsesUnfold(turn);
      var first := if turn[0].role == "tool" then [if turn[0].toolName == "" then "tool" else turn[0].toolName]
                   else if turn[0].role == "assistant" && turn[0].toolName != "" then [turn[0].toolName] else [];
      assert ToolNames(turn) == first + ToolNames(turn[1..]);
      ReadonlyConcat(first, ToolNames(turn[1..]));
      FirstReads(turn[0], first);
    }
  }

  lemma {:induction false} NoUses()
    ensures !SomeUse([]) && AllUsesRead([]) && AllReadonly([])
  {
  }

  lemma {:induction false} ReadonlyConcat(a: seq<string>, b: seq<string>)
    ensures AllReadonly(a + b) <==> AllReadonly(a) && AllReadonly(b)
  {
    hide ReadonlyTools;
    var both := a + b;
    assert forall i | 0 <= i < |a| :: a[i] == both[i];
    assert forall i | 0 <= i < |b| :: b[i] == both[|a| + i];
    assert forall i | |a| <= i < |both| :: both[i] == b[i - |a|];
  }

  lemma {:induction false} FirstReads(item: Item, names: seq<string>)
    requires names == if item.role == "tool" then [if item.toolName == "" then "tool" else item.toolName]
                      else if item.role == "assistant" && item.toolName != "" then [item.toolName] else []
    ensures AllReadonly(names) <==> (UsesTool(item) ==> ReadsOnly(item))
  {
    var name := if item.toolName == "" then "tool" else item.toolName;
    LiteralNames(name);
    LiteralNames(item.toolName);
    ReadonlyNames(name);
    hide AllReadonly, ReadonlyTools;
    assert names == if UsesTool(item) then [name] else [];
    OneReadonly(name);
  }

  lemma {:induction false} ReadonlyNames(name: string)
    ensures name in ReadonlyTools() <==> name == "list_files" || name == "read_file" || name == "grep"
  {
  }

  lemma {:induction false} OneReadonly(name: string)
    ensures AllReadonly([name]) <==> name in ReadonlyTools()
    ensures AllReadonly([])
  {
    hide ReadonlyTools;
    assert [name][0] == name;
  }

  lemma {:induction false} LiteralNames(name: string)
    ensures name == "tool" || name == "" ==> name != "list_files" && name != "read_file" && name != "grep"
    ensures name == "list_files" || name == "read_file" || name == "grep" ==>
              name != "write_file" && name != "patch_file" && name != "run_shell"
  {
    assert "tool"[0] == 't' && "grep"[0] == 'g' && "read_file"[2] == 'a' && "run_shell"[2] == 'n';
    assert |"tool"| == 4 && |"list_files"| == 10 && |"read_file"| == 9 && |"write_file"| == 10;
    assert "list_files"[0] == 'l' && "write_file"[0] == 'w' && "patch_file"[0] == 'p' && "run_shell"[0] == 'r';
  }

  lemma {:induction false} ReadonlyIsLowValue(names: seq<string>)
    requires AllReadonly(names)
    ensures forall i | 0 <= i < |names| :: names[i] !in HighValueTools()
  {
    forall i | 0 <= i < |names| ensures names[i] !in HighValueTools() { LiteralNames(names[i]); }
  }

  lemma {:induction false} SnipRule(env: Env, turn: seq<Item>, active: Option<int>)
    ensures ScoresSnip(env, turn, active) <==> MaySnip(env, turn, active)
  {
    hide IsCurrentTurn, IsNow, IsRepairState, ContainsAny, SomeMentions, SomeUse, AllUsesRead, ToolNames, JoinedContent,
         MentionsError, ProtectedKeywords, ReadonlyTools, HighValueTools;
    CurrentTurnIs(turn, active);
    MentionsErrorIs(JoinedContent(env, turn));
    JoinedMentions(env, turn);
    if forall u | 0 <= u < |turn| :: !turn[u].snip {
      ToolNamesAre(turn);
      if AllReadonly(ToolNames(turn)) { ReadonlyIsLowValue(ToolNames(turn)); }
    }
  }

  // ----- L4

  /** Worth at least forty tokens, without markers, records or summaries, mentioning no error, and not current. */
  predicate MayCollapse(env: Env, turn: seq<Item>, active: Option<int>) {
    && !IsNow(turn, active)
    && (forall u | 0 <= u < |turn| ::
          !turn[u].snip && !turn[u].collapsed && !IsRepairState(turn[u]) && !IsSummary(turn[u]))
    && !SomeMentions(env, turn)
    && Tokens(env, turn) >= 40
  }

  lemma {:induction false} CollapseRule(env: Env, turn: seq<Item>, active: Option<int>)
    ensures Collapsible(env, turn, active) <==> MayCollapse(env, turn, active)
  {
    hide IsCurrentTurn, IsNow, IsRepairState, IsSummary, ContainsAny, MentionsError, ProtectedKeywords, Tokens,
         ContentText;
    CurrentTurnIs(turn, active);
    forall u | 0 <= u < |turn|
      ensures HasProtectedContent(env, turn[u]) <==> MentionsError(ContentText(env, turn[u]))
    {
      MentionsErrorIs(ContentText(env, turn[u]));
    }
  }

  // ----- L1 and L3

  /** A tool text answering no identified call: the only content that is ever shortened. */
  predicate IsPlain(item: Item) {
    item.role == "tool" && item.content.Text? && item.toolCallId == "" && !IsRepairState(item)
  }

  /** A plain tool text of an unprotected turn that mentions no error and is no stub or marker yet. */
  predicate MayStub(env: Env, turns: seq<seq<Item>>, tail: nat, active: Option<int>, k: nat, item: Item) {
    && IsPlain(item) && !item.snip && item.compactRef == 0 && !MentionsError(ContentText(env, item))
    && forall t | 0 <= t < |turns| && StandsIn(turns, k, t) :: !StaysProtected(env, turns, tail, active, t)
  }

  lemma {:induction false} StandsInOne(turns: seq<seq<Item>>, k: nat, s: nat, t: nat)
    requires StandsIn(turns, k, s) && StandsIn(turns, k, t)
    ensures s == t
  {
    hide Flatten;
    if k < |Flatten(turns)| {
      if s < t { FrontGrows(turns, s + 1, t); }
      if t < s { FrontGrows(turns, t + 1, s); }
      FrontStep(turns, s);
      FrontStep(turns, t);
    }
  }

  lemma {:induction false} FrontStep(turns: seq<seq<Item>>, s: nat)
    requires s < |turns|
    ensures |Flatten(turns[..s + 1])| == |Flatten(turns[..s])| + |turns[s]|
  {
    FlattenConcat(turns[..s], [turns[s]]);
    FlattenOne(turns[s]);
    assert turns[..s + 1] == turns[..s] + [turns[s]];
  }

  lemma {:induction false} FrontGrows(turns: seq<seq<Item>>, s: nat, t: nat)
    requires s <= t <= |turns|
    ensures |Flatten(turns[..s])| <= |Flatten(turns[..t])|
  {
    FlattenConcat(turns[..s], turns[s..t]);
    assert turns[..t] == turns[..s] + turns[s..t];
  }

  lemma {:induction false} StubRule(env: Env, turns: seq<seq<Item>>, tail: nat, active: Option<int>, k: nat, item: Item)
    requires turns != []
    ensures Compactable(env, turns, Protected(env, turns, tail, active))(k, item)
            <==> MayStub(env, turns, tail, active, k, item)
  {
    hide IsProtected, StaysProtected, IsRepairState, TurnOf, StandsIn, ContainsAny, MentionsError, ProtectedKeywords,
         ContentText;
    MentionsErrorIs(ContentText(env, item));
    var t := TurnOf(turns, k);
    TurnOfLocates(turns, k);
    StandsInside(turns, k, t);
    ProtectedIs(env, turns, tail, active, t);
    forall s | 0 <= s < |turns| && StandsIn(turns, k, s) ensures s == t { StandsInOne(turns, k, s, t); }
  }

  lemma {:induction false} StandsInside(turns: seq<seq<Item>>, k: nat, t: nat)
    requires StandsIn(turns, k, t)
    ensures t < |turns|
  {
    hide Flatten;
  }

  // ----- L0

  /** A tool outside the allowed ones, or an answer that reports a rejected call. */
  predicate IsRefused(env: Env, policy: TierPolicy, item: Item) {
    item.role == "tool"
    && (|| (policy.allowedTools != {} && item.toolName != "" && item.toolName !in policy.allowedTools)
        || (policy.dropRejectedTools && ReportsRejection(env.strip(ContentText(env, item)))))
  }

  predicate ReportsRejection(text: string) {
    StartsWith(text, "Error:")
    && (|| Contains(text, "不在允许列表中") || Contains(text, "不可用。") || Contains(text, "未注册。")
        || Contains(text, "重复调用检测") || Contains(text, "超出配额限制") || Contains(text, "参数校验失败")
        || Contains(text, "审批被拒绝"))
  }

  /** What stays whatever else is dropped: the pinned roles, summaries, texts that name a pinned field or
      an error, markers, and the items of the current turn. */
  predicate IsKeptAnyway(env: Env, policy: TierPolicy, item: Item) {
    var text := ContentText(env, item);
    || item.role in policy.pinRoles
    || Contains(text, "[Earlier summary]") || Contains(text, "Traceback") || Contains(text, "Fail")
    || Contains(text, "FAILED") || Contains(text, "error:")
    || (exists i | 0 <= i < |policy.pinFields| :: NamesField(env, text, policy.pinFields[i]))
    || item.snip || item.collapsed
    || (policy.protectCurrentTurn && policy.currentTurn.Some? && item.turnId == policy.currentTurn)
  }

  predicate NamesField(env: Env, text: string, name: string) {
    || Contains(text, name)
    || Contains(if |env.lower(text)| <= 200 then env.lower(text) else env.lower(text)[..200], "\n" + name + ":")
  }

  /** An empty text, or a report of a malformed call. */
  predicate IsNoise(env: Env, policy: TierPolicy, item: Item) {
    var text := env.strip(ContentText(env, item));
    || (policy.dropEmptyContent && text == "")
    || (policy.dropLowValueSystem && item.role == "system" && Contains(text, "工具调用格式错误"))
  }

  predicate MayStay(env: Env, policy: TierPolicy, item: Item) {
    !IsRefused(env, policy, item) && (IsKeptAnyway(env, policy, item) || !IsNoise(env, policy, item))
  }

  lemma {:induction false} RejectionIs(env: Env, text: string)
    ensures IsRejectedToolContent(env, text) <==> ReportsRejection(env.strip(text))
  {
    hide Contains, StartsWith;
    var words := RejectedMarkers();
    assert words[0] == "不在允许列表中" && words[1] == "不可用。" && words[2] == "未注册。" && words[3] == "重复调用检测"
           && words[4] == "超出配额限制" && words[5] == "参数校验失败" && words[6] == "审批被拒绝" && |words| == 7;
  }

  lemma {:induction false} ContainedInFront(text: string, n: nat, needle: string)
    ensures Contains(Take(text, n), needle) ==> Contains(text, needle)
  {
    hide Contains;
    if Contains(Take(text, n), needle) {
      var i := ContainedAt(Take(text, n), needle);
      assert text[i..i + |needle|] == Take(text, n)[i..i + |needle|];
      ContainsAt(text, needle, i);
    }
  }

  lemma {:induction false} PinErrorsAre(text: string)
    ensures ContainsAny(text, PinnedErrors())
            <==> Contains(text, "Traceback") || Contains(text, "Fail") || Contains(text, "FAILED")
                 || Contains(text, "error:")
  {
    hide Contains;
    var words := PinnedErrors();
    assert words[0] == "Traceback" && words[1] == "Fail" && words[2] == "FAILED" && words[3] == "error:"
           && |words| == 4;
  }

  lemma {:induction false} PinWordsAre(text: string, fields: seq<string>)
    ensures ContainsAny(text, ["[Earlier summary]"] + fields)
            <==> Contains(text, "[Earlier summary]") || exists i | 0 <= i < |fields| :: Contains(text, fields[i])
  {
    hide Contains;
    var words := ["[Earlier summary]"] + fields;
    assert words[0] == "[Earlier summary]";
    assert forall i | 0 <= i < |fields| :: words[i + 1] == fields[i];
    assert forall i | 0 < i < |words| :: words[i] == fields[i - 1];
  }

  lemma {:induction false} KeptAnywayIs(env: Env, policy: TierPolicy, item: Item)
    ensures IsPinned(env, policy, item) <==> IsKeptAnyway(env, policy, item)
  {
    hide Contains, ContainsAny, ContentText, PinnedErrors;
    var text := ContentText(env, item);
    PinErrorsAre(text);
    PinWordsAre(text, policy.pinFields);
    forall i | 0 <= i < |policy.pinFields|
      ensures NamesField(env, text, policy.pinFields[i])
              <==> Contains(text, policy.pinFields[i]) || MentionsPinField(env, text, policy.pinFields[i])
    {
      ContainedInFront(text, 50, policy.pinFields[i]);
    }
  }

  lemma {:induction false} KeepRule(env: Env, policy: TierPolicy, item: Item)
    ensures Keeps(env, policy, item) <==> MayStay(env, policy, item)
  {
    hide IsPinned, IsKeptAnyway, IsRejectedToolContent, ReportsRejection, Contains, ContentText;
    KeptAnywayIs(env, policy, item);
    RejectionIs(env, ContentText(env, item));
  }
}
