/** Summary and omission records that carry no calls stay that way through the stages, so that taking
    them out before the summary can separate no call from its result. */
module RecordsStaySilent {
  import opened Results
  import opened HistoryItems
  import opened Interactions
  import opened InteractionLaws
  import opened Rewriting
  import opened Sequences
  import opened Compression
  import opened CompressionLaws
  import opened AutoCompact
  import opened AutoCompactLaws

  /** The two kinds of records L5 takes out make no call and answer none. */
  predicate RecordSilent(item: Item) {
    IsSummary(item) || item.omission ==> CallIds(item) == [] && ResultIds(item) == []
  }

  predicate RecordsSilent(history: seq<Item>) {
    forall item | item in history :: RecordSilent(item)
  }

  // ----- groups

  lemma {:induction false} FlattenHas(groups: seq<seq<Item>>, item: Item)
    ensures item in Flatten(groups) <==> exists i | 0 <= i < |groups| :: item in groups[i]
  {
    if groups != [] {
      FlattenHas(groups[1..], item);
      assert forall i | 0 <= i < |groups[1..]| :: groups[1..][i] == groups[i + 1];
      assert Flatten(groups) == groups[0] + Flatten(groups[1..]);
      if i :| 0 <= i < |groups| && item in groups[i] {
        if i > 0 { assert groups[1..][i - 1] == groups[i]; }
      }
    }
  }

  /** Groups rewritten one by one without giving a record a call keep the whole history's records silent. */
  lemma {:induction false} RegroupedSilent(groups: seq<seq<Item>>, rewritten: seq<seq<Item>>)
    requires RecordsSilent(Flatten(groups)) && |rewritten| == |groups|
    requires forall i | 0 <= i < |groups| :: RecordsSilent(groups[i]) ==> RecordsSilent(rewritten[i])
    ensures RecordsSilent(Flatten(rewritten))
  {
    hide RecordSilent, Flatten;
    forall item | item in Flatten(rewritten) ensures RecordSilent(item) {
      FlattenHas(rewritten, item);
      var i :| 0 <= i < |rewritten| && item in rewritten[i];
      forall x | x in groups[i] ensures RecordSilent(x) { FlattenHas(groups, x); }
      assert RecordsSilent(rewritten[i]);
    }
  }

  // ----- the stages

  lemma {:induction false} FilterSelects(env: Env, policy: TierPolicy, items: seq<Item>, item: Item)
    requires item in Filter(env, policy, items)
    ensures item in items
  {
    hide Keeps;
    if item !in Filter(env, policy, items[1..]) {
      assert item == items[0];
    } else {
      FilterSelects(env, policy, items[1..], item);
    }
  }

  lemma {:induction false} TierGuardSilent(env: Env, policy: TierPolicy, history: seq<Item>)
    requires TierGuard(env, policy, history).Some? && RecordsSilent(history)
    ensures RecordsSilent(TierGuard(env, policy, history).value)
  {
    hide Groups, RecordSilent, HasToolCall, HasRepairState, Filter, GoodGroups, Flatten, GuardGroups;
    var groups := Groups(history).value;
    GroupsAreInteractions(history);
    GuardedAt(env, policy, groups);
    var guarded := GuardGroups(env, policy, groups);
    forall i | 0 <= i < |groups| && RecordsSilent(groups[i]) ensures RecordsSilent(guarded[i]) {
      forall item | item in guarded[i] ensures RecordSilent(item) {
        if guarded[i] != groups[i] { FilterSelects(env, policy, groups[i], item); }
      }
    }
    RegroupedSilent(groups, guarded);
  }

  lemma {:induction false} TruncateSilent(env: Env, history: seq<Item>)
    requires RecordsSilent(history)
    ensures RecordsSilent(TruncateAll(env, history))
  {
    if history != [] {
      TruncateSilent(env, history[1..]);
      TruncatedSilent(env, history[0]);
      hide RecordSilent, Truncated;
      assert TruncateAll(env, history) == [Truncated(env, history[0])] + TruncateAll(env, history[1..]);
    }
  }

  lemma {:induction false} TruncatedSilent(env: Env, item: Item)
    requires RecordSilent(item)
    ensures RecordSilent(Truncated(env, item))
  {
    hide IsRepairState, StartsWith;
  }

  lemma {:induction false} MarkerItemsSilent(env: Env, i: nat, turn: seq<Item>)
    ensures RecordsSilent(SnipMarker(env, i, turn)) && RecordsSilent(CollapseMarker(env, i, turn))
  {
    hide IsSummary;
    assert forall item: Item | item.content.Text? && item.toolCalls == [] && item.role == "system" ::
        CallIds(item) == [] && ResultIds(item) == [];
  }

  lemma {:induction false} SnipSilent(env: Env, history: seq<Item>, threshold: int, tail: nat, active: Option<int>)
    requires Snip(env, history, threshold, tail, active).Some? && RecordsSilent(history)
    ensures RecordsSilent(Snip(env, history, threshold, tail, active).value)
  {
    hide Groups, RecordsSilent, SnipMarker, SnipTurns, Tokens, Flatten, GoodGroups;
    if Snip(env, history, threshold, tail, active).value != history {
      var turns := Groups(history).value;
      var result := SnipTurns(env, turns, threshold, tail, active);
      GroupsAreInteractions(history);
      SnipRewritesOldest(env, turns, threshold, tail, active);
      forall i | 0 <= i < |turns| && RecordsSilent(turns[i]) ensures RecordsSilent(result[i]) {
        MarkerItemsSilent(env, i, turns[i]);
      }
      RegroupedSilent(turns, result);
    }
  }

  lemma {:induction false} CollapseSilent(env: Env, history: seq<Item>, threshold: int, tail: nat, active: Option<int>)
    requires Collapse(env, history, threshold, tail, active).Some? && RecordsSilent(history)
    ensures RecordsSilent(Collapse(env, history, threshold, tail, active).value)
  {
    hide Groups, RecordsSilent, CollapseMarker, CollapseTurns, Tokens, Flatten, GoodGroups;
    if Collapse(env, history, threshold, tail, active).value != history {
      var turns := Groups(history).value;
      var result := CollapseTurns(env, turns, threshold, tail, active);
      GroupsAreInteractions(history);
      CollapseRewritesOldest(env, turns, threshold, tail, active);
      forall i | 0 <= i < |turns| && RecordsSilent(turns[i]) ensures RecordsSilent(result[i]) {
        MarkerItemsSilent(env, i, turns[i]);
      }
      RegroupedSilent(turns, result);
    }
  }

  lemma {:induction false} AssignSilent(history: seq<Item>, last: nat)
    requires RecordsSilent(history)
    ensures RecordsSilent(AssignRefs(history, last))
  {
    if history != [] {
      var tagged := history[0].role == "tool" && !history[0].snip;
      var first := if tagged then history[0].(refId := last + 1) else history[0];
      RefSilent(history[0], last + 1);
      hide RecordSilent;
      AssignSilent(history[1..], if tagged then last + 1 else last);
      assert AssignRefs(history, last) == [first] + AssignRefs(history[1..], if tagged then last + 1 else last);
    }
  }

  lemma {:induction false} RefSilent(item: Item, ref: nat)
    requires RecordSilent(item)
    ensures RecordSilent(item.(refId := ref))
  {
    hide StartsWith, UseIds, AnswerIds;
  }

  lemma {:induction false} CompactSilent(env: Env, turns: seq<seq<Item>>, protected: set<nat>, i: nat, item: Item)
    requires Compactable(env, turns, protected)(i, item) && RecordSilent(item)
    ensures RecordSilent(CompactWith(env)(i, item))
  {
    hide IsRepairState, HasProtectedContent, StartsWith;
  }

  lemma {:induction false} MicrocompactSilent(env: Env, history: seq<Item>, threshold: int, tail: nat,
                                              active: Option<int>)
    requires Microcompact(env, history, threshold, tail, active).Some? && RecordsSilent(history)
    ensures RecordsSilent(Microcompact(env, history, threshold, tail, active).value)
  {
    hide Groups, Tokens, RecordSilent, AssignRefs, Protected, Compactable, CompactWith;
    if Tokens(env, history) > threshold {
      var turns := Groups(history).value;
      var protected := Protected(env, turns, tail, active);
      var eligible := Compactable(env, turns, protected);
      var working := AssignRefs(history, 0);
      AssignSilent(history, 0);
      var cut := LeastCut(working, 0, eligible, CompactWith(env), ItemTokens(env), threshold);
      var result := Rewritten(working, cut, eligible, CompactWith(env));
      forall i | 0 <= i < |result| ensures RecordSilent(result[i]) {
        assert RecordSilent(working[i]);
        if i < cut && eligible(i, working[i]) {
          CompactSilent(env, turns, protected, i, working[i]);
        }
      }
    }
  }

  // ----- the summary stage

  lemma {:induction false} FitNeverMismatches(env: Env, history: seq<Item>, window: int, active: Option<int>,
                                              maxGroups: Option<nat>, omitted: nat, summaryItems: nat)
    requires Groups(history).Some?
    ensures FitGroups(env, history, window, active, maxGroups, omitted, summaryItems) != Err(PairMismatch)
  {
    hide Groups, PinnedGroups, Tokens, Render, GreedyAdd;
  }

  /** L5 refuses a history for its pairs exactly when it has to rework it and what is left without
      the earlier records does not pair up. */
  lemma {:induction false} L5RefusesExactly(env: Env, history: seq<Item>, window: int, trigger: int,
                                            active: Option<int>,
                                            allowSummary: bool, previousReadable: bool, attempt: Attempt)
    ensures AutoCompacted(env, history, window, trigger, active, allowSummary, previousReadable, attempt)
            == Err(PairMismatch)
            <==> (Tokens(env, history) > trigger || CountSummaries(history) > 0) && Groups(Working(history)).None?
  {
    hide Groups, Tokens, FitGroups, OldGroups, RecentGroups, SelectFrom, PinnedGroups, Working, CountSummaries;
    if Groups(Working(history)).Some? {
      FitNeverMismatches(env, Working(history), window, active, Some(FALLBACK_KEEP_GROUPS),
                         PriorOmitted(history), PriorItems(history) + CountSummaries(history));
    }
  }

  /** So an accepted history whose records are silent is never refused by L5 for its pairs. */
  lemma {:induction false} L5Accepts(env: Env, history: seq<Item>, window: int, trigger: int, active: Option<int>,
                                     allowSummary: bool, previousReadable: bool, attempt: Attempt)
    requires Groups(history).Some? && RecordsSilent(history)
    ensures AutoCompacted(env, history, window, trigger, active, allowSummary, previousReadable, attempt)
            != Err(PairMismatch)
  {
    hide *;
    L5RefusesExactly(env, history, window, trigger, active, allowSummary, previousReadable, attempt);
    SilentAt(history);
    WorkingIsAccepted(history);
  }

  lemma {:induction false} SilentAt(history: seq<Item>)
    requires RecordsSilent(history)
    ensures forall i | 0 <= i < |history| && (IsSummary(history[i]) || history[i].omission) ::
              CallIds(history[i]) == [] && ResultIds(history[i]) == []
  {
    hide IsSummary, CallIds, ResultIds;
    forall i | 0 <= i < |history| ensures RecordSilent(history[i]) { }
  }
}
