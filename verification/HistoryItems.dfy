/** Items of a message history and what the context layer reads off them. */
module HistoryItems {
  import opened Results
  import opened Sequences

  /** A call or result identifier; None stands for a missing or non-text one. */
  type Id = Option<string>

  datatype Block =
    | ToolUse(id: Id, payload: string)
    | ToolResult(callId: Id, payload: string)
    | OtherBlock(payload: string)

  datatype Content = Text(text: string) | Blocks(blocks: seq<Block>)

  /** One message. Absent text fields are empty, absent flags false, absent numbers zero;
      `stateRecord` stands for any of the markers of a repair-state record. */
  datatype Item = Item(
    role: string,
    content: Content,
    toolCallId: string,
    toolCalls: seq<Id>,
    toolName: string,
    turnId: Option<int>,
    stateRecord: bool,
    snip: bool,
    collapsed: bool,
    compactRef: nat,
    refId: nat,
    observationId: string,
    omission: bool,
    omittedInteractions: nat,
    omittedSummaryItems: nat)

  /** What the model leaves open: how a block list prints, Unicode text operations, the lines
      of a text, token counts and trimming to them, and the wording of markers. */
  datatype Env = Env(
    repr: seq<Block> -> string,
    lower: string -> string,
    strip: string -> string,
    countText: string -> nat,
    countItems: seq<Item> -> nat,
    splitLines: string -> seq<string>,
    fit: (string, int) -> string,
    truncationNote: nat -> string,
    snipText: (nat, seq<Item>) -> string,
    collapseText: (nat, seq<Item>) -> string,
    stubText: (string, nat, nat, string) -> string,
    omissionText: (nat, nat) -> string)

  // ----- text helpers

  /** needle in text */
  predicate Contains(text: string, needle: string) {
    exists i | 0 <= i <= |text| :: StartsWith(text[i..], needle)
  }

  predicate ContainsAny(text: string, needles: seq<string>) {
    exists i | 0 <= i < |needles| :: Contains(text, needles[i])
  }

  /** str(item["content"]) */
  function ContentText(env: Env, item: Item): string {
    match item.content
    case Text(t) => t
    case Blocks(bs) => env.repr(bs)
  }

  /** count_history_tokens */
  function Tokens(env: Env, history: seq<Item>): nat {
    if history == [] then 0 else env.countItems(history)
  }

  // ----- identifiers of calls and results

  function UseIds(blocks: seq<Block>): seq<Id> {
    if blocks == [] then []
    else (if blocks[0].ToolUse? then [blocks[0].id] else []) + UseIds(blocks[1..])
  }

  function AnswerIds(blocks: seq<Block>): seq<Id> {
    if blocks == [] then []
    else (if blocks[0].ToolResult? then [blocks[0].callId] else []) + AnswerIds(blocks[1..])
  }

  function BlocksOf(item: Item): seq<Block> {
    if item.content.Blocks? then item.content.blocks else []
  }

  /** The calls an item makes. */
  function CallIds(item: Item): seq<Id> {
    UseIds(BlocksOf(item)) + item.toolCalls
  }

  /** The calls an item answers. */
  function ResultIds(item: Item): seq<Id> {
    AnswerIds(BlocksOf(item)) + if item.role == "tool" && item.toolCallId != "" then [Some(item.toolCallId)] else []
  }

  // ----- kinds of items

  /** A summary record; a block list prints as "[{...", never with this prefix. */
  predicate IsSummary(item: Item) {
    item.role == "system" && item.content.Text? && StartsWith(item.content.text, "[Earlier summary]")
  }

  predicate IsRepairState(item: Item) {
    || item.stateRecord
    || (item.content.Text?
        && (StartsWith(item.content.text, "修复状态") || StartsWith(item.content.text, "长任务状态")
            || StartsWith(item.content.text, "[repair-context]")))
  }

  predicate HasToolUse(blocks: seq<Block>) {
    exists i | 0 <= i < |blocks| :: blocks[i].ToolUse?
  }

  predicate MakesCall(item: Item) {
    item.toolCalls != [] || (item.role == "assistant" && item.toolName != "") || HasToolUse(BlocksOf(item))
  }

  predicate HasToolCall(group: seq<Item>) {
    exists i | 0 <= i < |group| :: MakesCall(group[i])
  }

  // ----- turns

  function TurnIdOf(turn: seq<Item>): Option<int> {
    if turn == [] then None else if turn[0].turnId.Some? then turn[0].turnId else TurnIdOf(turn[1..])
  }

  predicate IsCurrentTurn(turn: seq<Item>, active: Option<int>) {
    active.Some? && TurnIdOf(turn) == active
  }

  function Flatten(groups: seq<seq<Item>>): seq<Item> {
    if groups == [] then [] else groups[0] + Flatten(groups[1..])
  }

  lemma {:induction false} FlattenUnfold(a: seq<seq<Item>>)
    requires a != []
    ensures Flatten(a) == a[0] + Flatten(a[1..])
  {
  }

  lemma {:induction false} FlattenConcat(a: seq<seq<Item>>, b: seq<seq<Item>>)
    ensures Flatten(a + b) == Flatten(a) + Flatten(b)
  {
    if a == [] {
      assert a + b == b;
    } else {
      FlattenConcat(a[1..], b);
      FlattenUnfold(a);
      FlattenUnfold(a + b);
      hide Flatten;
      assert (a + b)[1..] == a[1..] + b;
      Reassociate(a[0], Flatten(a[1..]), Flatten(b));
    }
  }

  lemma {:induction false} FlattenOne(group: seq<Item>)
    ensures Flatten([group]) == group
  {
    assert [group][1..] == [] && group + Flatten([]) == group;
  }
}
