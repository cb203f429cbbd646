/** The compression pipeline: the stages in order, and what holds of the whole. */
module Pipeline {
  import opened Results
  import opened HistoryItems
  import opened Interactions
  import opened InteractionLaws
  import opened Compression
  import opened CompressionLaws
  import opened AutoCompact
  import opened AutoCompactLaws
  import opened AutoCompactExact
  import opened RecordsStaySilent
  import opened StageLaws

  /** The window, the token thresholds computed from it, and the protected tail. */
  datatype Limits = Limits(l2: int, l3: int, l4: int, window: int, trigger: int, tail: nat)

  datatype SummaryStep = SummaryStep(allowed: bool, previousReadable: bool, attempt: Attempt)

  function StateRecord(text: string): Item { BlankItem("system", text).(stateRecord := true) }

  /** The stages as one function; `record` is the state text the integrity check may put in front. */
  function Compressed(env: Env, policy: TierPolicy, history: seq<Item>, limits: Limits, active: Option<int>,
                      summary: SummaryStep, record: Option<string>): Result<seq<Item>, StageError>
  {
    match TierGuard(env, policy, history)
    case None => Err(PairMismatch)
    case Some(guarded) =>
      match Snip(env, TruncateAll(env, guarded), limits.l2, limits.tail, active)
      case None => Err(PairMismatch)
      case Some(snipped) =>
        match Microcompact(env, snipped, limits.l3, limits.tail, active)
        case None => Err(PairMismatch)
        case Some(compacted) =>
          match Collapse(env, compacted, limits.l4, limits.tail, active)
          case None => Err(PairMismatch)
          case Some(collapsed) =>
            var fitted := AutoCompacted(env, collapsed, limits.window, limits.trigger, active,
                                        summary.allowed, summary.previousReadable, summary.attempt);
            if fitted.Err? || record.None? then fitted else Ok([StateRecord(record.value)] + fitted.value)
  }

  /** What lies between the stages. */
  datatype Between = Between(guarded: seq<Item>, shortened: seq<Item>, snipped: seq<Item>, stubbed: seq<Item>,
                             collapsed: seq<Item>)

  /** Each stage does its work on what the one before it left, and the answer is that of the last one behind
      the state record. */
  ghost predicate PassesBy(env: Env, policy: TierPolicy, history: seq<Item>, limits: Limits, active: Option<int>,
                           summary: SummaryStep, record: Option<string>, between: Between,
                           r: Result<seq<Item>, StageError>)
  {
    && Guards(env, policy, history, between.guarded)
    && Shortens(env, between.guarded, between.shortened)
    && Snips(env, between.shortened, limits.l2, limits.tail, active, between.snipped)
    && Stubs(env, between.snipped, limits.l3, limits.tail, active, between.stubbed)
    && Collapses(env, between.stubbed, limits.l4, limits.tail, active, between.collapsed)
    && Answered(env, between.collapsed, limits, active, summary, record, r)
  }

  ghost predicate Answered(env: Env, history: seq<Item>, limits: Limits, active: Option<int>, summary: SummaryStep,
                           record: Option<string>, r: Result<seq<Item>, StageError>)
  {
    exists fitted :: LastStage(env, history, limits, active, summary, fitted) && r == Recorded(fitted, record)
  }

  ghost predicate LastStage(env: Env, history: seq<Item>, limits: Limits, active: Option<int>, summary: SummaryStep,
                            fitted: Result<seq<Item>, StageError>)
  {
    AnswersL5(env, history, limits.window, limits.trigger, active, summary.allowed && summary.previousReadable,
              summary.attempt, fitted)
  }

  /** What was returned, behind the state record if there is one. */
  function Recorded(fitted: Result<seq<Item>, StageError>, record: Option<string>): Result<seq<Item>, StageError> {
    if fitted.Ok? && record.Some? then Ok([StateRecord(record.value)] + fitted.value) else fitted
  }

  ghost predicate Passes(env: Env, policy: TierPolicy, history: seq<Item>, limits: Limits, active: Option<int>,
                         summary: SummaryStep, record: Option<string>, r: Result<seq<Item>, StageError>)
  {
    exists between :: PassesBy(env, policy, history, limits, active, summary, record, between, r)
  }

  lemma {:induction false} CompressedPasses(env: Env, policy: TierPolicy, history: seq<Item>, limits: Limits,
                                            active: Option<int>, summary: SummaryStep, record: Option<string>)
    requires Groups(history).Some?
    ensures Passes(env, policy, history, limits, active, summary, record,
                   Compressed(env, policy, history, limits, active, summary, record))
  {
    hide Groups, TierGuard, TruncateAll, Snip, Microcompact, Collapse, AutoCompacted, Guards, Shortens, Snips, Stubs,
         Collapses, AnswersL5;
    TierGuardKeepsPairs(env, policy, history);
    TierGuardIs(env, policy, history);
    var guarded := TierGuard(env, policy, history).value;
    TruncateKeepsPairs(env, guarded);
    TruncateAllShortens(env, guarded);
    var shortened := TruncateAll(env, guarded);
    SnipKeepsPairs(env, shortened, limits.l2, limits.tail, active);
    SnipSnips(env, shortened, limits.l2, limits.tail, active);
    var snipped := Snip(env, shortened, limits.l2, limits.tail, active).value;
    MicrocompactKeepsPairs(env, snipped, limits.l3, limits.tail, active);
    MicrocompactStubs(env, snipped, limits.l3, limits.tail, active);
    var stubbed := Microcompact(env, snipped, limits.l3, limits.tail, active).value;
    CollapseKeepsPairs(env, stubbed, limits.l4, limits.tail, active);
    CollapseCollapses(env, stubbed, limits.l4, limits.tail, active);
    var collapsed := Collapse(env, stubbed, limits.l4, limits.tail, active).value;
    AnswersExactly(env, collapsed, limits.window, limits.trigger, active, summary.allowed, summary.previousReadable,
                   summary.attempt);
    var fitted := AutoCompacted(env, collapsed, limits.window, limits.trigger, active, summary.allowed,
                                summary.previousReadable, summary.attempt);
    var r := Compressed(env, policy, history, limits, active, summary, record);
    assert LastStage(env, collapsed, limits, active, summary, fitted) && r == Recorded(fitted, record);
    assert Answered(env, collapsed, limits, active, summary, record, r);
    assert PassesBy(env, policy, history, limits, active, summary, record,
                    Between(guarded, shortened, snipped, stubbed, collapsed), r);
  }

  method RunCompressionPipeline(env: Env, policy: TierPolicy, history: seq<Item>, limits: Limits, active: Option<int>,
                                summary: SummaryStep, record: Option<string>)
    returns (r: Result<seq<Item>, StageError>)
    ensures r == Compressed(env, policy, history, limits, active, summary, record)
    ensures Groups(history).Some? ==> Passes(env, policy, history, limits, active, summary, record, r)
    ensures Groups(history).None? ==> r == Err(PairMismatch)
    ensures Groups(history).Some? && RecordsSilent(history) ==> r != Err(PairMismatch)
    ensures Groups(history).Some? && r.Ok? ==>
              && Groups(r.value).Some?
              && (record.None? ==> Tokens(env, r.value) <= limits.window || Tokens(env, r.value) <= limits.trigger)
  {
    hide TierGuard, TruncateAll, Snip, Microcompact, Collapse, AutoCompacted, Groups, Tokens, RecordsSilent,
         RecordSilent, Passes;
    if Groups(history).Some? { CompressedPasses(env, policy, history, limits, active, summary, record); }
    RefusalsOfPipeline(env, policy, history, limits, active, summary, record);
    if Groups(history).Some? && Compressed(env, policy, history, limits, active, summary, record).Ok? {
      PipelineKeepsPairs(env, policy, history, limits, active, summary, record);
    }
    var guarded := L0TierGuard(env, policy, history);
    if guarded.None? { return Err(PairMismatch); }
    var projected := L1BudgetReduction(env, guarded.value);
    var snipped := L2Snip(env, projected, limits.l2, limits.tail, active);
    if snipped.None? { return Err(PairMismatch); }
    var compacted := L3Microcompact(env, snipped.value, limits.l3, limits.tail, active);
    if compacted.None? { return Err(PairMismatch); }
    var collapsed := L4Collapse(env, compacted.value, limits.l4, limits.tail, active);
    if collapsed.None? { return Err(PairMismatch); }
    r := L5AutoCompact(env, collapsed.value, limits.window, limits.trigger, active,
                       summary.allowed, summary.previousReadable, summary.attempt);
    if r.Ok? && record.Some? {
      r := Ok([StateRecord(record.value)] + r.value);
    }
  }

  lemma {:induction false} RecordKeepsPairs(text: string, history: seq<Item>)
    requires Groups(history).Some?
    ensures Groups([StateRecord(text)] + history).Some?
  {
    var record := StateRecord(text);
    assert [record][1..] == [] && Silent([record]);
    hide Groups, Closed, Silent, CallSet;
    AcceptedIsClosed(history);
    SilentIsClosed([record], {});
    SilentTrack([record], {}, {});
    ClosedConcat([record], history, {}) by { assert {} + CallSet([record]) == {}; }
    AcceptedIsClosed([record] + history);
  }

  /** What the pipeline returns for an accepted history is accepted again, and fits the window unless
      a state record was put in front or the trigger is larger. */
  lemma {:induction false} PipelineKeepsPairs(env: Env, policy: TierPolicy, history: seq<Item>, limits: Limits,
                                              active: Option<int>, summary: SummaryStep, record: Option<string>)
    requires Groups(history).Some? && Compressed(env, policy, history, limits, active, summary, record).Ok?
    ensures var r := Compressed(env, policy, history, limits, active, summary, record).value;
            && Groups(r).Some?
            && (record.None? ==> Tokens(env, r) <= limits.window || Tokens(env, r) <= limits.trigger)
  {
    hide Groups, TierGuard, TruncateAll, Snip, Microcompact, Collapse, AutoCompacted, Tokens;
    TierGuardKeepsPairs(env, policy, history);
    var guarded := TierGuard(env, policy, history).value;
    TruncateKeepsPairs(env, guarded);
    SnipKeepsPairs(env, TruncateAll(env, guarded), limits.l2, limits.tail, active);
    var snipped := Snip(env, TruncateAll(env, guarded), limits.l2, limits.tail, active).value;
    MicrocompactKeepsPairs(env, snipped, limits.l3, limits.tail, active);
    var compacted := Microcompact(env, snipped, limits.l3, limits.tail, active).value;
    CollapseKeepsPairs(env, compacted, limits.l4, limits.tail, active);
    var collapsed := Collapse(env, compacted, limits.l4, limits.tail, active).value;
    AutoCompactKeepsPairs(env, collapsed, limits.window, limits.trigger, active,
                          summary.allowed, summary.previousReadable, summary.attempt);
    AutoCompactFits(env, collapsed, limits.window, limits.trigger, active,
                    summary.allowed, summary.previousReadable, summary.attempt);
    if record.Some? {
      RecordKeepsPairs(record.value, AutoCompacted(env, collapsed, limits.window, limits.trigger, active,
                                                   summary.allowed, summary.previousReadable, summary.attempt).value);
    }
  }

  /** A history that does not pair up is refused; one that does is not refused for its pairs as long as
      its summary and omission records carry no calls. */
  lemma {:induction false} RefusalsOfPipeline(env: Env, policy: TierPolicy, history: seq<Item>, limits: Limits,
                                              active: Option<int>, summary: SummaryStep, record: Option<string>)
    ensures var r := Compressed(env, policy, history, limits, active, summary, record);
            && (Groups(history).None? ==> r == Err(PairMismatch))
            && (Groups(history).Some? && RecordsSilent(history) ==> r != Err(PairMismatch))
  {
    hide *;
    if Groups(history).None? {
      UngroupedIsRefused(env, policy, history, limits, active, summary, record);
    } else if RecordsSilent(history) {
      PipelineNeverMismatches(env, policy, history, limits, active, summary, record);
    }
  }

  lemma {:induction false} UngroupedIsRefused(env: Env, policy: TierPolicy, history: seq<Item>, limits: Limits,
                                              active: Option<int>, summary: SummaryStep, record: Option<string>)
    requires Groups(history).None?
    ensures Compressed(env, policy, history, limits, active, summary, record) == Err(PairMismatch)
  {
    hide Groups, TruncateAll, Snip, Microcompact, Collapse, AutoCompacted, GuardGroups, Flatten;
  }

  lemma {:induction false} PipelineNeverMismatches(env: Env, policy: TierPolicy, history: seq<Item>, limits: Limits,
                                                   active: Option<int>, summary: SummaryStep, record: Option<string>)
    requires Groups(history).Some? && RecordsSilent(history)
    ensures Compressed(env, policy, history, limits, active, summary, record) != Err(PairMismatch)
  {
    hide Groups, TierGuard, TruncateAll, Snip, Microcompact, Collapse, AutoCompacted, RecordsSilent;
    TierGuardKeepsPairs(env, policy, history);
    TierGuardSilent(env, policy, history);
    var guarded := TierGuard(env, policy, history).value;
    TruncateKeepsPairs(env, guarded);
    TruncateSilent(env, guarded);
    var truncated := TruncateAll(env, guarded);
    SnipKeepsPairs(env, truncated, limits.l2, limits.tail, active);
    SnipSilent(env, truncated, limits.l2, limits.tail, active);
    var snipped := Snip(env, truncated, limits.l2, limits.tail, active).value;
    MicrocompactKeepsPairs(env, snipped, limits.l3, limits.tail, active);
    MicrocompactSilent(env, snipped, limits.l3, limits.tail, active);
    var compacted := Microcompact(env, snipped, limits.l3, limits.tail, active).value;
    CollapseKeepsPairs(env, compacted, limits.l4, limits.tail, active);
    CollapseSilent(env, compacted, limits.l4, limits.tail, active);
    var collapsed := Collapse(env, compacted, limits.l4, limits.tail, active).value;
    L5Accepts(env, collapsed, limits.window, limits.trigger, active,
              summary.allowed, summary.previousReadable, summary.attempt);
  }
}
