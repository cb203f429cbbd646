/** The tail of native tool messages that may be sent: validated, projected, packed. */
module NativeTail {
  import opened Results
  import opened UnitPacker

  datatype Kind = ToolUse | ToolResult | OtherKind

  /** `id` is a call's own id, `callId` the id a result answers; None when missing or not a text. */
  datatype Block = NotABlock | Block(kind: Kind, id: Option<string>, callId: Option<string>, content: string)

  datatype Message = NotAMessage | Message(role: string, blocks: Option<seq<Block>>)

  datatype Pair = Pair(assistant: Message, user: Message)

  predicate Shaped(m: Message, role: string) {
    m.Message? && m.role == role && m.blocks.Some? && NotABlock !in m.blocks.value
  }

  function CallsOf(blocks: seq<Block>): seq<Option<string>> {
    if blocks == [] then []
    else (if blocks[0].Block? && blocks[0].kind.ToolUse? then [blocks[0].id] else []) + CallsOf(blocks[1..])
  }

  function ResultsOf(blocks: seq<Block>): seq<Option<string>> {
    if blocks == [] then []
    else (if blocks[0].Block? && blocks[0].kind.ToolResult? then [blocks[0].callId] else []) + ResultsOf(blocks[1..])
  }

  predicate Named(id: Option<string>) { id.Some? && id.value != "" }

  predicate Distinct(ids: seq<Option<string>>) {
    forall i, j | 0 <= i < j < |ids| :: ids[i] != ids[j]
  }

  function Ids(ids: seq<Option<string>>): set<Option<string>> { set id | id in ids }

  /** Calls exist, are named, distinct, new, and answered exactly in the next message. */
  predicate Matched(pair: Pair, seen: set<Option<string>>) {
    && Shaped(pair.assistant, "assistant") && Shaped(pair.user, "user")
    && var calls, results := CallsOf(pair.assistant.blocks.value), ResultsOf(pair.user.blocks.value);
       && calls != []
       && (forall id | id in calls :: Named(id)) && (forall id | id in results :: Named(id))
       && Distinct(calls) && Distinct(results)
       && Ids(calls) == Ids(results)
       && seen !! Ids(calls)
  }

  function CallIds(pair: Pair): set<Option<string>> {
    if Shaped(pair.assistant, "assistant") then Ids(CallsOf(pair.assistant.blocks.value)) else {}
  }

  function Scan(messages: seq<Message>, seen: set<Option<string>>): Option<seq<Pair>> {
    if |messages| < 2 then Some([])
    else
      var pair := Pair(messages[0], messages[1]);
      if !Matched(pair, seen) then None
      else
        match Scan(messages[2..], seen + CallIds(pair))
        case None => None
        case Some(rest) => Some([pair] + rest)
  }

  function Groups(messages: seq<Message>): Option<seq<Pair>> {
    if |messages| % 2 != 0 then None else Scan(messages, {})
  }

  function After(groups: seq<Pair>, rest: Option<seq<Pair>>): Option<seq<Pair>> {
    if rest.None? then None else Some(groups + rest.value)
  }

  lemma {:induction false} AfterNothing(rest: Option<seq<Pair>>)
    ensures After([], rest) == rest
  {
    if rest.Some? { assert [] + rest.value == rest.value; }
  }

  lemma {:induction false} ScanStep(groups: seq<Pair>, messages: seq<Message>, index: nat, seen: set<Option<string>>)
    requires index + 2 <= |messages|
    ensures var pair := Pair(messages[index], messages[index + 1]);
            After(groups, Scan(messages[index..], seen))
            == if Matched(pair, seen) then After(groups + [pair], Scan(messages[index + 2..], seen + CallIds(pair)))
               else None
  {
    hide Matched, CallIds;
    var pair := Pair(messages[index], messages[index + 1]);
    assert messages[index..][2..] == messages[index + 2..];
    var rest := Scan(messages[index + 2..], seen + CallIds(pair));
    if rest.Some? { assert groups + ([pair] + rest.value) == groups + [pair] + rest.value; }
  }

  method NativeGroups(messages: seq<Message>) returns (r: Option<seq<Pair>>)
    ensures r == Groups(messages)
  {
    hide Matched, CallIds, After, Scan;
    if |messages| % 2 != 0 { return None; }
    var groups: seq<Pair> := [];
    var seen: set<Option<string>> := {};
    var index := 0;
    assert messages[0..] == messages;
    AfterNothing(Scan(messages, {}));
    while index < |messages|
      invariant 0 <= index <= |messages| && index % 2 == 0
      invariant Scan(messages, {}) == After(groups, Scan(messages[index..], seen))
    {
      var pair := Pair(messages[index], messages[index + 1]);
      ScanStep(groups, messages, index, seen);
      if !Matched(pair, seen) { return None; }
      seen := seen + CallIds(pair);
      groups := groups + [pair];
      index := index + 2;
    }
    ScanNothing(groups, messages, seen);
    return Some(groups);
  }

  lemma {:induction false} ScanNothing(groups: seq<Pair>, messages: seq<Message>, seen: set<Option<string>>)
    ensures After(groups, Scan(messages[|messages|..], seen)) == Some(groups)
  {
    assert groups + [] == groups;
  }

  // ----- projection

  datatype Evidence = Evidence(ok: bool, diagnostic: string, content: string)

  datatype Projection = Projection(refs: map<string, string>, selected: set<string>, evidence: map<string, Evidence>)

  function Sourced(oid: string): string { "[source selected: " + oid + "]" }

  function ProjectBlock(p: Projection, block: Block): Block {
    if block.NotABlock? then block
    else
      var key := if block.callId.Some? then block.callId.value else "";
      var oid := if key in p.refs then p.refs[key] else "";
      if oid in p.evidence && !p.evidence[oid].ok then block.(content := p.evidence[oid].diagnostic)
      else if oid != "" && oid in p.selected then block.(content := Sourced(oid))
      else if oid in p.evidence then block.(content := p.evidence[oid].content)
      else block
  }

  function ProjectBlocks(p: Projection, blocks: seq<Block>): seq<Block> {
    if blocks == [] then [] else [ProjectBlock(p, blocks[0])] + ProjectBlocks(p, blocks[1..])
  }

  /** Only the contents of the answering message change. */
  function ProjectPair(p: Projection, pair: Pair): Pair {
    if pair.user.Message? && pair.user.blocks.Some?
    then pair.(user := pair.user.(blocks := Some(ProjectBlocks(p, pair.user.blocks.value)))) else pair
  }

  function Project(p: Projection, groups: seq<Pair>): seq<Pair> {
    if groups == [] then [] else Project(p, groups[..|groups| - 1]) + [ProjectPair(p, groups[|groups| - 1])]
  }

  method ProjectTail(p: Projection, groups: seq<Pair>) returns (projected: seq<Pair>)
    ensures projected == Project(p, groups)
  {
    hide ProjectPair;
    projected := [];
    for i := 0 to |groups|
      invariant projected == Project(p, groups[..i])
    {
      assert groups[..i + 1][..i] == groups[..i];
      projected := projected + [ProjectPair(p, groups[i])];
    }
    assert groups[..|groups|] == groups;
  }

  // ----- what stays paired

  function Flat(groups: seq<Pair>): seq<Message> {
    if groups == [] then [] else [groups[0].assistant, groups[0].user] + Flat(groups[1..])
  }

  predicate AllMatched(groups: seq<Pair>, seen: set<Option<string>>) {
    groups == [] || (Matched(groups[0], seen) && AllMatched(groups[1..], seen + CallIds(groups[0])))
  }

  lemma {:induction false} ScanFlat(groups: seq<Pair>, seen: set<Option<string>>)
    ensures |Flat(groups)| % 2 == 0
    ensures Scan(Flat(groups), seen) == if AllMatched(groups, seen) then Some(groups) else None
  {
    hide Matched, CallIds;
    if groups != [] {
      ScanFlat(groups[1..], seen + CallIds(groups[0]));
      assert Flat(groups)[2..] == Flat(groups[1..]);
      assert groups == [groups[0]] + groups[1..];
    }
  }

  lemma {:induction false} ScanIsFlat(messages: seq<Message>, seen: set<Option<string>>)
    requires |messages| % 2 == 0 && Scan(messages, seen).Some?
    ensures Flat(Scan(messages, seen).value) == messages
  {
    hide Matched, CallIds;
    if |messages| >= 2 {
      var pair := Pair(messages[0], messages[1]);
      ScanIsFlat(messages[2..], seen + CallIds(pair));
      var rest := Scan(messages[2..], seen + CallIds(pair)).value;
      assert ([pair] + rest)[1..] == rest;
      assert messages == [messages[0], messages[1]] + messages[2..];
    }
  }

  /** Messages are accepted exactly when they are the pairs, and all of them match. */
  lemma {:induction false} AcceptedIsMatched(messages: seq<Message>, groups: seq<Pair>)
    ensures Groups(messages) == Some(groups) <==> messages == Flat(groups) && AllMatched(groups, {})
  {
    hide Scan, Flat, AllMatched;
    ScanFlat(groups, {});
    if Groups(messages).Some? {
      ScanIsFlat(messages, {});
      ScanFlat(Groups(messages).value, {});
    }
  }

  lemma {:induction false} MatchedFewer(pair: Pair, seen: set<Option<string>>, fewer: set<Option<string>>)
    requires Matched(pair, seen) && fewer <= seen
    ensures Matched(pair, fewer)
  {
  }

  /** Leaving whole pairs out keeps the others matched. */
  lemma {:induction false} SubsequenceMatched(part: seq<Pair>, groups: seq<Pair>, seen: set<Option<string>>,
                                              fewer: set<Option<string>>)
    requires AllMatched(groups, seen) && Subsequence(part, groups) && fewer <= seen
    ensures AllMatched(part, fewer)
    decreases |groups|
  {
    hide Matched, CallIds;
    if part != [] {
      if part[0] == groups[0] {
        MatchedFewer(groups[0], seen, fewer);
        SubsequenceMatched(part[1..], groups[1..], seen + CallIds(groups[0]), fewer + CallIds(groups[0]));
      } else {
        SubsequenceMatched(part, groups[1..], seen + CallIds(groups[0]), fewer);
      }
    }
  }

  lemma {:induction false} ProjectedIds(p: Projection, blocks: seq<Block>)
    requires NotABlock !in blocks
    ensures ResultsOf(ProjectBlocks(p, blocks)) == ResultsOf(blocks)
    ensures NotABlock !in ProjectBlocks(p, blocks)
  {
    if blocks != [] {
      ProjectedIds(p, blocks[1..]);
      assert blocks[0] in blocks;
      assert ProjectBlocks(p, blocks)[1..] == ProjectBlocks(p, blocks[1..]);
      hide ProjectBlocks;
    }
  }

  lemma {:induction false} ProjectedMatched(p: Projection, pair: Pair, seen: set<Option<string>>)
    requires Matched(pair, seen)
    ensures Matched(ProjectPair(p, pair), seen) && CallIds(ProjectPair(p, pair)) == CallIds(pair)
  {
    ProjectedIds(p, pair.user.blocks.value);
  }

  lemma {:induction false} ProjectHead(p: Projection, groups: seq<Pair>)
    requires groups != []
    ensures Project(p, groups) == [ProjectPair(p, groups[0])] + Project(p, groups[1..])
    decreases |groups|
  {
    hide ProjectPair;
    if |groups| > 1 {
      var front := groups[..|groups| - 1];
      ProjectHead(p, front);
      assert front[1..] == groups[1..][..|groups| - 2];
    } else {
      assert groups[..0] == [] && groups[1..] == [];
    }
  }

  lemma {:induction false} AllProjectedMatched(p: Projection, groups: seq<Pair>, seen: set<Option<string>>)
    requires AllMatched(groups, seen)
    ensures AllMatched(Project(p, groups), seen)
    decreases |groups|
  {
    hide Matched, CallIds, ProjectPair;
    if groups != [] {
      ProjectHead(p, groups);
      ProjectedMatched(p, groups[0], seen);
      AllProjectedMatched(p, groups[1..], seen + CallIds(groups[0]));
      hide Project;
      assert Project(p, groups)[1..] == Project(p, groups[1..]);
    }
  }

  /** Whatever the limit, the tail that is packed from projected groups is again accepted, with
      exactly the packed groups: projecting and packing never separate a call from its result. */
  lemma {:induction false} PackedTailIsPaired(messages: seq<Message>, p: Projection, limit: int, cost: seq<Pair> -> nat)
    requires Groups(messages).Some?
    ensures var projected := Project(p, Groups(messages).value);
            var tail := Packed(projected, limit, true, cost, |projected|);
            && Subsequence(tail, projected)
            && Groups(Flat(tail)) == Some(tail)
  {
    hide *;
    var groups := Groups(messages).value;
    AcceptedIsMatched(messages, groups);
    AllProjectedMatched(p, groups, {});
    var projected := Project(p, groups);
    PacksWholeUnits(projected, limit, true, cost);
    var tail := Packed(projected, limit, true, cost, |projected|);
    SubsequenceMatched(tail, projected, {}, {});
    AcceptedIsMatched(Flat(tail), tail);
  }
}
