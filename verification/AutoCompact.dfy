/** The last stage, L5: one summary for old interactions, then whole groups that fit the window. */
module AutoCompact {
  import opened Results
  import opened HistoryItems
  import opened Interactions
  import opened Compression

  datatype StageError = PairMismatch | ProtectedOverBudget | Cancelled

  /** What the external summary work came to: it was cancelled, it failed in any other way, or it
      gave a text together with what its prompt and its fitting left out. */
  datatype Attempt = Aborted | Failed | Summarized(text: string, omitted: nat, dropped: nat)

  const FALLBACK_KEEP_GROUPS: nat := 8

  // ----- pinned groups

  predicate HasUser(group: seq<Item>) { exists i | 0 <= i < |group| :: group[i].role == "user" }

  predicate HasSummary(group: seq<Item>) { exists i | 0 <= i < |group| :: IsSummary(group[i]) }

  function FirstUser(groups: seq<seq<Item>>): nat {
    if groups == [] || HasUser(groups[0]) then 0 else 1 + FirstUser(groups[1..])
  }

  predicate IsPinnedGroup(groups: seq<seq<Item>>, active: Option<int>, i: nat)
    requires i < |groups|
  {
    i == FirstUser(groups) || IsCurrentTurn(groups[i], active) || HasRepairState(groups[i]) || HasSummary(groups[i])
  }

  /** The first user group, the current turn, repair state and summaries. */
  function PinnedGroups(groups: seq<seq<Item>>, active: Option<int>): set<nat> {
    set i: nat | i < |groups| && IsPinnedGroup(groups, active, i)
  }

  // ----- fitting whole groups

  function SelectFrom(groups: seq<seq<Item>>, selected: set<nat>, i: nat): seq<Item>
    requires i <= |groups|
    decreases |groups| - i
  {
    if i == |groups| then [] else (if i in selected then groups[i] else []) + SelectFrom(groups, selected, i + 1)
  }

  function OmissionMarker(env: Env, lost: nat, summaryItems: nat): Item {
    BlankItem("system", "[History omitted: " + env.omissionText(lost, summaryItems) + "]")
      .(omission := true, omittedInteractions := lost, omittedSummaryItems := summaryItems)
  }

  function Lost(groups: seq<seq<Item>>, selected: set<nat>, omitted: nat): nat {
    if |selected| <= |groups| then |groups| - |selected| + omitted else omitted
  }

  /** The selected groups in order, and a marker when anything was left out. */
  function Render(env: Env, groups: seq<seq<Item>>, selected: set<nat>, omitted: nat, summaryItems: nat): seq<Item> {
    var lost := Lost(groups, selected, omitted);
    SelectFrom(groups, selected, 0) +
    if lost > 0 || summaryItems > 0 then [OmissionMarker(env, lost, summaryItems)] else []
  }

  predicate Full(selected: set<nat>, maxGroups: Option<nat>) {
    maxGroups.Some? && |selected| >= maxGroups.value
  }

  /** Adding back, newest first, every group below `i` that still fits. */
  function GreedyAdd(env: Env, groups: seq<seq<Item>>, selected: set<nat>, i: nat, window: int,
                     maxGroups: Option<nat>, omitted: nat, summaryItems: nat): set<nat>
    requires i <= |groups|
    decreases i
  {
    if i == 0 then selected
    else
      var more := selected + {i - 1};
      var next :=
        if i - 1 in selected || Full(selected, maxGroups)
           || Tokens(env, Render(env, groups, more, omitted, summaryItems)) > window then selected
        else more;
      GreedyAdd(env, groups, next, i - 1, window, maxGroups, omitted, summaryItems)
  }

  function FitGroups(env: Env, history: seq<Item>, window: int, active: Option<int>, maxGroups: Option<nat>,
                     omitted: nat, summaryItems: nat): Result<seq<Item>, StageError>
  {
    match Groups(history)
    case None => Err(PairMismatch)
    case Some(groups) =>
      var pinned := PinnedGroups(groups, active);
      if Tokens(env, Render(env, groups, pinned, omitted, summaryItems)) > window then Err(ProtectedOverBudget)
      else
        var selected := GreedyAdd(env, groups, pinned, |groups|, window, maxGroups, omitted, summaryItems);
        Ok(Render(env, groups, selected, omitted, summaryItems))
  }

  method FitL5Groups(env: Env, history: seq<Item>, window: int, active: Option<int>, maxGroups: Option<nat>,
                     omitted: nat, summaryItems: nat) returns (r: Result<seq<Item>, StageError>)
    ensures r == FitGroups(env, history, window, active, maxGroups, omitted, summaryItems)
  {
    hide Groups, PinnedGroups, Render, Tokens;
    var grouped := InteractionGroups(history);
    if grouped.None? { return Err(PairMismatch); }
    var groups := grouped.value;
    var pinned := PinnedGroups(groups, active);
    var selected := pinned;
    if Tokens(env, Render(env, groups, selected, omitted, summaryItems)) > window {
      return Err(ProtectedOverBudget);
    }
    for k := |groups| downto 0
      invariant GreedyAdd(env, groups, pinned, |groups|, window, maxGroups, omitted, summaryItems)
             == GreedyAdd(env, groups, selected, k, window, maxGroups, omitted, summaryItems)
    {
      if k in selected || Full(selected, maxGroups) { continue; }
      ghost var before := selected;
      selected := selected + {k};
      if Tokens(env, Render(env, groups, selected, omitted, summaryItems)) > window {
        selected := selected - {k};
        assert selected == before;
      }
    }
    return Ok(Render(env, groups, selected, omitted, summaryItems));
  }

  // ----- the stage

  function CountSummaries(history: seq<Item>): nat {
    if history == [] then 0 else (if IsSummary(history[0]) then 1 else 0) + CountSummaries(history[1..])
  }

  function PriorOmitted(history: seq<Item>): nat {
    if history == [] then 0 else history[0].omittedInteractions + PriorOmitted(history[1..])
  }

  function PriorItems(history: seq<Item>): nat {
    if history == [] then 0 else history[0].omittedSummaryItems + PriorItems(history[1..])
  }

  /** The history without earlier summaries and omission markers. */
  function Working(history: seq<Item>): seq<Item> {
    if history == [] then []
    else (if IsSummary(history[0]) || history[0].omission then [] else [history[0]]) + Working(history[1..])
  }

  /** Unpinned groups below `n`, in order. */
  function EligibleBelow(n: nat, pinned: set<nat>): (r: seq<nat>)
    ensures forall i: nat :: i in r <==> i < n && i !in pinned
  {
    if n == 0 then [] else EligibleBelow(n - 1, pinned) + if n - 1 in pinned then [] else [n - 1]
  }

  /** The first half, at least one, of the unpinned groups before the last two. */
  function OldGroups(groups: seq<seq<Item>>, pinned: set<nat>): set<nat> {
    var eligible := EligibleBelow(if |groups| >= 2 then |groups| - 2 else 0, pinned);
    var half := if |eligible| / 2 >= 1 then |eligible| / 2 else 1;
    var chosen := eligible[..if half <= |eligible| then half else |eligible|];
    set i | i in chosen
  }

  function Indices(n: nat): (r: set<nat>)
    ensures forall i: nat :: i in r <==> i < n
    ensures |r| == n
  {
    if n == 0 then {} else Indices(n - 1) + {n - 1}
  }

  function RecentGroups(groups: seq<seq<Item>>, oldGroups: set<nat>): set<nat> {
    Indices(|groups|) - oldGroups
  }

  function SummaryMarker(text: string): Item { BlankItem("system", "[Earlier summary]: " + text) }

  function Fallback(env: Env, history: seq<Item>, window: int, active: Option<int>): Result<seq<Item>, StageError> {
    FitGroups(env, Working(history), window, active, Some(FALLBACK_KEEP_GROUPS),
              PriorOmitted(history), PriorItems(history) + CountSummaries(history))
  }

  function AutoCompacted(env: Env, history: seq<Item>, window: int, trigger: int, active: Option<int>,
                         allowSummary: bool, previousReadable: bool, attempt: Attempt): Result<seq<Item>, StageError>
  {
    var tokensBefore := Tokens(env, history);
    if tokensBefore <= trigger && CountSummaries(history) == 0 then Ok(history)
    else
      match Groups(Working(history))
      case None => Err(PairMismatch)
      case Some(groups) =>
        var pinned := PinnedGroups(groups, active);
        if Tokens(env, SelectFrom(groups, pinned, 0)) > window then Err(ProtectedOverBudget)
        else
          var oldGroups := OldGroups(groups, pinned);
          if !allowSummary || !previousReadable then Fallback(env, history, window, active)
          else if tokensBefore <= trigger && CountSummaries(history) == 1 then Ok(history)
          else if SelectFrom(groups, oldGroups, 0) == [] && CountSummaries(history) == 0
          then Fallback(env, history, window, active)
          else
            match attempt
            case Aborted => Err(Cancelled)
            case Failed => Fallback(env, history, window, active)
            case Summarized(text, omitted, dropped) =>
              var fitted := FitGroups(env,
                                      [SummaryMarker(text)] + SelectFrom(groups, RecentGroups(groups, oldGroups), 0),
                                      window, active, None, PriorOmitted(history) + omitted, PriorItems(history)
                                        + dropped);
              if fitted.Ok? then fitted else Fallback(env, history, window, active)
  }
}
