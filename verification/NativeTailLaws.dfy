/** Which native tails are accepted, block by block, and what projecting one changes. */
module NativeTailLaws {
  import opened Results
  import opened NativeTail

  // ----- calls and results by position

  predicate Uses(blocks: seq<Block>, k: nat) { k < |blocks| && blocks[k].Block? && blocks[k].kind.ToolUse? }

  predicate Answers(blocks: seq<Block>, k: nat) { k < |blocks| && blocks[k].Block? && blocks[k].kind.ToolResult? }

  /** Every call has an id, and no two calls have the same one. */
  ghost predicate OwnIds(blocks: seq<Block>) {
    && (forall k: nat | Uses(blocks, k) :: blocks[k].id.Some? && blocks[k].id.value != "")
    && (forall k: nat, l: nat | Uses(blocks, k) && Uses(blocks, l) && blocks[k].id == blocks[l].id :: k == l)
  }

  /** Every result names a call, and no two results the same one. */
  ghost predicate OwnCallIds(blocks: seq<Block>) {
    && (forall k: nat | Answers(blocks, k) :: blocks[k].callId.Some? && blocks[k].callId.value != "")
    && (forall k: nat, l: nat | Answers(blocks, k) && Answers(blocks,
                                                              l) && blocks[k].callId == blocks[l].callId :: k == l)
  }

  predicate CallsId(blocks: seq<Block>, id: Option<string>) {
    exists k | 0 <= k < |blocks| :: Uses(blocks, k) && blocks[k].id == id
  }

  predicate AnswersId(blocks: seq<Block>, id: Option<string>) {
    exists k | 0 <= k < |blocks| :: Answers(blocks, k) && blocks[k].callId == id
  }

  lemma {:induction false} CallsUnfold(blocks: seq<Block>)
    requires blocks != []
    ensures var rest := blocks[1..];
            && (forall id :: CallsId(blocks, id) <==> (Uses(blocks, 0) && blocks[0].id == id) || CallsId(rest, id))
            && (OwnIds(blocks)
                <==> && OwnIds(rest)
                     && (Uses(blocks, 0) ==>
                           blocks[0].id.Some? && blocks[0].id.value != "" && !CallsId(rest, blocks[0].id)))
  {
    var rest := blocks[1..];
    forall k: nat ensures Uses(rest, k) <==> Uses(blocks, k + 1) {}
    assert forall k | 0 <= k < |rest| :: rest[k] == blocks[k + 1];
    assert forall k | 0 < k < |blocks| :: blocks[k] == rest[k - 1] && (Uses(blocks, k) <==> Uses(rest, k - 1));
    hide Uses;
  }

  lemma {:induction false} ResultsUnfold(blocks: seq<Block>)
    requires blocks != []
    ensures var rest := blocks[1..];
            && (forall id ::
                  AnswersId(blocks, id) <==> (Answers(blocks, 0) && blocks[0].callId == id) || AnswersId(rest, id))
            && (OwnCallIds(blocks)
                <==> && OwnCallIds(rest)
                     && (Answers(blocks, 0) ==>
                           blocks[0].callId.Some? && blocks[0].callId.value != ""
                             && !AnswersId(rest, blocks[0].callId)))
  {
    var rest := blocks[1..];
    forall k: nat ensures Answers(rest, k) <==> Answers(blocks, k + 1) {}
    assert forall k | 0 <= k < |rest| :: rest[k] == blocks[k + 1];
    assert forall k | 0 < k < |blocks| :: blocks[k] == rest[k - 1] && (Answers(blocks, k) <==> Answers(rest, k - 1));
    hide Answers;
  }

  lemma {:induction false} DistinctUnfold(id: Option<string>, rest: seq<Option<string>>)
    ensures Distinct([id] + rest) <==> id !in rest && Distinct(rest)
    ensures (forall x | x in [id] + rest :: Named(x)) <==> Named(id) && forall x | x in rest :: Named(x)
  {
    var all := [id] + rest;
    assert forall i | 0 <= i < |rest| :: rest[i] == all[i + 1];
    assert forall i | 0 < i < |all| :: all[i] == rest[i - 1];
    hide Named;
    if Distinct(all) {
      forall i | 0 <= i < |rest| ensures rest[i] != id { assert all[0] != all[i + 1]; }
      forall i, j | 0 <= i < j < |rest| ensures rest[i] != rest[j] { assert all[i + 1] != all[j + 1]; }
    }
    if id !in rest && Distinct(rest) {
      forall i, j | 0 <= i < j < |all| ensures all[i] != all[j] {
        assert all[j] == rest[j - 1] && rest[j - 1] in rest;
      }
    }
  }

  lemma {:induction false} CallsOfAre(blocks: seq<Block>)
    ensures forall id :: id in CallsOf(blocks) <==> CallsId(blocks, id)
    ensures (forall id | id in CallsOf(blocks) :: Named(id)) && Distinct(CallsOf(blocks)) <==> OwnIds(blocks)
  {
    hide CallsId, OwnIds, Distinct;
    if blocks == [] {
      NoBlocks();
    } else {
      CallsOfAre(blocks[1..]);
      CallsUnfold(blocks);
      DistinctUnfold(if blocks[0].Block? then blocks[0].id else None, CallsOf(blocks[1..]));
      assert [] + CallsOf(blocks[1..]) == CallsOf(blocks[1..]);
    }
  }

  lemma {:induction false} ResultsOfAre(blocks: seq<Block>)
    ensures forall id :: id in ResultsOf(blocks) <==> AnswersId(blocks, id)
    ensures (forall id | id in ResultsOf(blocks) :: Named(id)) && Distinct(ResultsOf(blocks)) <==> OwnCallIds(blocks)
  {
    hide AnswersId, OwnCallIds, Distinct;
    if blocks == [] {
      NoBlocks();
    } else {
      ResultsOfAre(blocks[1..]);
      ResultsUnfold(blocks);
      DistinctUnfold(if blocks[0].Block? then blocks[0].callId else None, ResultsOf(blocks[1..]));
      assert [] + ResultsOf(blocks[1..]) == ResultsOf(blocks[1..]);
    }
  }

  lemma {:induction false} NoBlocks()
    ensures OwnIds([]) && OwnCallIds([]) && Distinct([]) && forall id :: !CallsId([], id) && !AnswersId([], id)
  {
  }

  // ----- accepted tails

  predicate BlocksOnly(m: Message, role: string) {
    m.Message? && m.role == role && m.blocks.Some? && forall k | 0 <= k < |m.blocks.value| :: m.blocks.value[k].Block?
  }

  /** An assistant message with calls and the user message that answers exactly these. */
  ghost predicate IsExchange(assistant: Message, user: Message) {
    && BlocksOnly(assistant, "assistant") && BlocksOnly(user, "user")
    && (exists id :: CallsId(assistant.blocks.value, id))
    && OwnIds(assistant.blocks.value) && OwnCallIds(user.blocks.value)
    && forall id :: CallsId(assistant.blocks.value, id) <==> AnswersId(user.blocks.value, id)
  }

  predicate Calls(m: Message, id: Option<string>) { m.Message? && m.blocks.Some? && CallsId(m.blocks.value, id) }

  lemma {:induction false} ShapedIs(m: Message, role: string)
    ensures Shaped(m, role) <==> BlocksOnly(m, role)
  {
  }

  lemma {:induction false} MatchedIs(pair: Pair, seen: set<Option<string>>)
    ensures Matched(pair, seen)
            <==> IsExchange(pair.assistant, pair.user) && forall id | id in seen :: !Calls(pair.assistant, id)
    ensures Matched(pair, {}) ==> forall id :: id in CallIds(pair) <==> Calls(pair.assistant, id)
  {
    ShapedIs(pair.assistant, "assistant");
    ShapedIs(pair.user, "user");
    hide Shaped, BlocksOnly, CallsId, AnswersId, OwnIds, OwnCallIds, Distinct, Named;
    if Shaped(pair.assistant, "assistant") && Shaped(pair.user, "user") {
      ShapedHasBlocks(pair.assistant, "assistant");
      ShapedHasBlocks(pair.user, "user");
      CallsOfAre(pair.assistant.blocks.value);
      ResultsOfAre(pair.user.blocks.value);
      SetsAgree(CallsOf(pair.assistant.blocks.value), ResultsOf(pair.user.blocks.value), seen);
    }
  }

  lemma {:induction false} ShapedHasBlocks(m: Message, role: string)
    requires Shaped(m, role)
    ensures m.Message? && m.blocks.Some?
  {
  }

  lemma {:induction false} SetsAgree(calls: seq<Option<string>>, results: seq<Option<string>>,
                                     seen: set<Option<string>>)
    ensures Ids(calls) == Ids(results) <==> forall id :: id in calls <==> id in results
    ensures seen !! Ids(calls) <==> forall id | id in seen :: id !in calls
    ensures calls != [] <==> exists id :: id in calls
    ensures forall id :: id in Ids(calls) <==> id in calls
  {
    if calls != [] { assert calls[0] in calls; }
    assert forall id :: (id in Ids(calls) <==> id in calls) && (id in Ids(results) <==> id in results);
    hide Ids;
    if forall id :: id in calls <==> id in results { assert Ids(calls) == Ids(results); }
  }

  /** Every pair is an exchange whose calls are new. */
  ghost predicate Exchanges(messages: seq<Message>, seen: set<Option<string>>) {
    && |messages| % 2 == 0
    && (forall i | 0 <= i < |messages| / 2 :: IsExchange(messages[2 * i], messages[2 * i + 1]))
    && (forall i, id | 0 <= i < |messages| / 2 && id in seen :: !Calls(messages[2 * i], id))
    && (forall i, j, id | 0 <= i < j < |messages| / 2 && Calls(messages[2 * i], id) :: !Calls(messages[2 * j], id))
  }

  lemma {:induction false} MovedBack(messages: seq<Message>, i: nat)
    requires |messages| >= 2 && |messages| % 2 == 0 && i < |messages[2..]| / 2
    ensures 2 * (i + 1) + 1 < |messages|
    ensures messages[2..][2 * i] == messages[2 * (i + 1)] && messages[2..][2 * i + 1] == messages[2 * (i + 1) + 1]
  {
  }

  lemma {:induction false} ExchangesBehind(messages: seq<Message>, seen: set<Option<string>>, more: set<Option<string>>)
    requires |messages| >= 2 && |messages| % 2 == 0
    requires forall id :: id in more <==> id in seen || Calls(messages[0], id)
    requires Exchanges(messages, seen)
    ensures IsExchange(messages[0], messages[1]) && forall id | id in seen :: !Calls(messages[0], id)
    ensures Exchanges(messages[2..], more)
  {
    hide IsExchange, Calls;
    FirstExchange(messages, seen);
    var rest := messages[2..];
    forall i | 0 <= i < |rest| / 2
      ensures rest[2 * i] == messages[2 * (i + 1)] && rest[2 * i + 1] == messages[2 * (i + 1) + 1]
    {
      MovedBack(messages, i);
    }
    forall i, id | 0 <= i < |rest| / 2 && id in more ensures !Calls(rest[2 * i], id) {
      assert Calls(messages[0], id) ==> Calls(messages[2 * 0], id);
      assert rest[2 * i] == messages[2 * (i + 1)];
    }
    forall i, j, id | 0 <= i < j < |rest| / 2 && Calls(rest[2 * i], id) ensures !Calls(rest[2 * j], id) {
      assert rest[2 * i] == messages[2 * (i + 1)] && rest[2 * j] == messages[2 * (j + 1)];
    }
    forall i | 0 <= i < |rest| / 2 ensures IsExchange(rest[2 * i], rest[2 * i + 1]) {
      assert rest[2 * i] == messages[2 * (i + 1)];
    }
  }

  lemma {:induction false} ExchangesInFront(messages: seq<Message>, seen: set<Option<string>>,
                                            more: set<Option<string>>)
    requires |messages| >= 2 && |messages| % 2 == 0
    requires forall id :: id in more <==> id in seen || Calls(messages[0], id)
    requires IsExchange(messages[0], messages[1]) && forall id | id in seen :: !Calls(messages[0], id)
    requires Exchanges(messages[2..], more)
    ensures Exchanges(messages, seen)
  {
    hide IsExchange, Calls;
    var rest := messages[2..];
    forall i | 0 < i < |messages| / 2
      ensures rest[2 * (i - 1)] == messages[2 * i] && rest[2 * (i - 1) + 1] == messages[2 * i + 1]
    {
      MovedBack(messages, i - 1);
    }
    forall i | 0 <= i < |messages| / 2 ensures IsExchange(messages[2 * i], messages[2 * i + 1]) {
      if i > 0 { assert IsExchange(rest[2 * (i - 1)], rest[2 * (i - 1) + 1]); }
    }
    forall i, id | 0 <= i < |messages| / 2 && id in seen ensures !Calls(messages[2 * i], id) {
      if i > 0 { assert id in more && !Calls(rest[2 * (i - 1)], id); }
    }
    forall i, j, id | 0 <= i < j < |messages| / 2 && Calls(messages[2 * i], id) ensures !Calls(messages[2 * j], id) {
      assert messages[2 * j] == rest[2 * (j - 1)];
      if i > 0 {
        assert messages[2 * i] == rest[2 * (i - 1)];
      } else {
        assert id in more;
      }
    }
  }

  lemma {:induction false} ScanIs(messages: seq<Message>, seen: set<Option<string>>)
    requires |messages| % 2 == 0
    ensures Scan(messages, seen).Some? <==> Exchanges(messages, seen)
  {
    hide Matched, IsExchange, Calls, CallIds, Exchanges;
    if |messages| < 2 {
      NoExchanges(messages, seen);
    } else {
      var pair := Pair(messages[0], messages[1]);
      MatchedIs(pair, seen);
      MatchedIs(pair, {});
      if Matched(pair, seen) {
        MatchedFewer(pair, seen, {});
        var more := seen + CallIds(pair);
        ScanIs(messages[2..], more);
        if Exchanges(messages, seen) { ExchangesBehind(messages, seen, more); }
        if Exchanges(messages[2..], more) { ExchangesInFront(messages, seen, more); }
      } else if Exchanges(messages, seen) {
        FirstExchange(messages, seen);
      }
    }
  }

  lemma {:induction false} NoExchanges(messages: seq<Message>, seen: set<Option<string>>)
    requires messages == []
    ensures Exchanges(messages, seen)
  {
  }

  lemma {:induction false} FirstExchange(messages: seq<Message>, seen: set<Option<string>>)
    requires |messages| >= 2 && Exchanges(messages, seen)
    ensures IsExchange(messages[0], messages[1]) && forall id | id in seen :: !Calls(messages[0], id)
  {
    hide IsExchange, Calls;
    assert IsExchange(messages[2 * 0], messages[2 * 0 + 1]);
    assert forall id | id in seen :: !Calls(messages[2 * 0], id);
  }

  /** A tail is accepted exactly when it is a list of exchanges: calls with ids of their own, new over the whole
      tail, each answered exactly once in the very next message and by nothing else. */
  lemma {:induction false} TailsAreExchanges(messages: seq<Message>)
    ensures Groups(messages).Some? <==> Exchanges(messages, {})
  {
    hide Scan, IsExchange, Calls;
    if |messages| % 2 == 0 { ScanIs(messages, {}); }
  }

  // ----- projecting

  /** What becomes of a result: the diagnostic of evidence that failed, a note for a selected source, the
      content of other evidence, or what it was. */
  function ProjectedContent(p: Projection, block: Block): string
    requires block.Block?
  {
    var key := if block.callId.None? then "" else block.callId.value;
    var oid := if key in p.refs then p.refs[key] else "";
    var known := oid in p.evidence;
    if known && !p.evidence[oid].ok then p.evidence[oid].diagnostic
    else if oid in p.selected && oid != "" then "[source selected: " + oid + "]"
    else if known then p.evidence[oid].content
    else block.content
  }

  lemma {:induction false} ProjectedBlock(p: Projection, block: Block)
    ensures block.Block? ==> ProjectBlock(p, block) == block.(content := ProjectedContent(p, block))
    ensures block.NotABlock? ==> ProjectBlock(p, block) == block
  {
  }

  lemma {:induction false} ProjectedBlockAt(p: Projection, blocks: seq<Block>, k: nat)
    requires k < |blocks|
    ensures |ProjectBlocks(p, blocks)| == |blocks| && ProjectBlocks(p, blocks)[k] == ProjectBlock(p, blocks[k])
  {
    hide ProjectBlock;
    if k > 0 {
      ProjectedBlockAt(p, blocks[1..], k - 1);
    } else if |blocks| > 1 {
      ProjectedBlockAt(p, blocks[1..], 0);
    }
  }

  lemma {:induction false} ProjectedPairAt(p: Projection, groups: seq<Pair>, i: nat)
    requires i < |groups|
    ensures |Project(p, groups)| == |groups| && Project(p, groups)[i] == ProjectPair(p, groups[i])
  {
    hide ProjectPair;
    var front := groups[..|groups| - 1];
    if i < |groups| - 1 {
      ProjectedPairAt(p, front, i);
    } else if |groups| > 1 {
      ProjectedPairAt(p, front, 0);
    } else {
      assert Project(p, front) == [];
    }
  }

  /** Projecting an accepted tail keeps every assistant message, and of each answer everything but the contents
      of its blocks, each of which is replaced by what is known of the observation it refers to. */
  lemma {:induction false} OnlyContentsChange(p: Projection, messages: seq<Message>, i: nat, k: nat)
    requires Groups(messages).Some? && i < |Groups(messages).value|
    requires Groups(messages).value[i].user.Message? && Groups(messages).value[i].user.blocks.Some?
    requires k < |Groups(messages).value[i].user.blocks.value| && Groups(messages).value[i].user.blocks.value[k].Block?
    ensures var before := Groups(messages).value[i];
            var projected := Project(p, Groups(messages).value);
            && |projected| == |Groups(messages).value| && projected[i].assistant == before.assistant
            && projected[i].user.Message? && projected[i].user.role == before.user.role
            && projected[i].user.blocks.Some?
            && |projected[i].user.blocks.value| == |before.user.blocks.value|
            && projected[i].user.blocks.value[k]
               == before.user.blocks.value[k].(content := ProjectedContent(p, before.user.blocks.value[k]))
  {
    hide Groups, Project, ProjectBlock, ProjectBlocks, ProjectedContent;
    var before := Groups(messages).value[i];
    ProjectedPairAt(p, Groups(messages).value, i);
    ProjectedBlockAt(p, before.user.blocks.value, k);
    ProjectedBlock(p, before.user.blocks.value[k]);
  }
}
