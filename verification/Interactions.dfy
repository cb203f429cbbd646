/** Grouping a history into indivisible interactions: the engine's scan, the pairing of calls and
    results it amounts to, and what its groups are. */
module Interactions {
  import opened Results
  import opened HistoryItems

  // ----- the scan

  datatype Scan = Scan(groups: seq<seq<Item>>, current: seq<Item>, pending: set<Id>, seen: set<Id>, simpleCall: bool)

  const START := Scan([], [], {}, {}, false)

  function IdSet(ids: seq<Id>): set<Id> { set r | r in ids }

  predicate Distinct(ids: seq<Id>) {
    forall i, j | 0 <= i < j < |ids| :: ids[i] != ids[j]
  }

  predicate WellFormedId(r: Id) { r.Some? && r.value != "" }

  predicate WellFormedIds(ids: seq<Id>) {
    forall i | 0 <= i < |ids| :: WellFormedId(ids[i])
  }

  predicate ResultsAllowed(results: seq<Id>, pending: set<Id>) {
    results == [] || (WellFormedIds(results) && Distinct(results) && IdSet(results) <= pending)
  }

  predicate CallsAllowed(calls: seq<Id>, seen: set<Id>) {
    calls == [] || (WellFormedIds(calls) && Distinct(calls) && IdSet(calls) !! seen)
  }

  predicate Continues(item: Item, simpleCall: bool) {
    ResultIds(item) != [] || item.role == "tool" || (simpleCall && item.role == "user")
  }

  predicate Boundary(item: Item, simpleCall: bool) {
    IsSummary(item) || (item.role == "user" && !Continues(item, simpleCall))
  }

  function Step(s: Scan, item: Item): Option<Scan> {
    var results, calls := ResultIds(item), CallIds(item);
    if !ResultsAllowed(results, s.pending) || !CallsAllowed(calls, s.seen) then None
    else
      var closes := Boundary(item, s.simpleCall) && s.current != [] && s.pending == {} && !s.simpleCall;
      var groups := if closes then s.groups + [s.current] else s.groups;
      var current := (if closes then [] else s.current) + [item];
      var pending := s.pending - IdSet(results) + IdSet(calls);
      var simple := (item.role == "assistant" && item.toolName != "")
                    || (s.simpleCall && !Continues(item, s.simpleCall));
      if IsSummary(item) && pending == {}
      then Some(Scan(groups + [current], [], pending, s.seen + IdSet(calls), simple))
      else Some(Scan(groups, current, pending, s.seen + IdSet(calls), simple))
  }

  function Run(s: Scan, history: seq<Item>): Option<Scan>
    decreases |history|
  {
    if history == [] then Some(s)
    else
      match Step(s, history[0])
      case None => None
      case Some(next) => Run(next, history[1..])
  }

  function Close(s: Scan): Option<seq<seq<Item>>> {
    if s.pending != {} then None
    else Some(if s.current != [] then s.groups + [s.current] else s.groups)
  }

  /** The interaction groups of a history, if its calls and results pair up. */
  function Groups(history: seq<Item>): Option<seq<seq<Item>>> {
    match Run(START, history)
    case None => None
    case Some(s) => Close(s)
  }

  method InteractionGroups(history: seq<Item>) returns (r: Option<seq<seq<Item>>>)
    ensures r == Groups(history)
  {
    hide ResultIds, CallIds, IsSummary;
    var groups: seq<seq<Item>> := [];
    var current: seq<Item> := [];
    var pending: set<Id> := {};
    var seen: set<Id> := {};
    var simpleCall := false;
    for i := 0 to |history|
      invariant Run(START, history) == Run(Scan(groups, current, pending, seen, simpleCall), history[i..])
    {
      var item := history[i];
      assert history[i..][0] == item && history[i..][1..] == history[i + 1..];
      var results := ResultIds(item);
      if results != [] && (!WellFormedIds(results) || !Distinct(results) || !(IdSet(results) <= pending)) {
        return None;
      }
      var continuation := results != [] || item.role == "tool" || (simpleCall && item.role == "user");
      var boundary := IsSummary(item) || (item.role == "user" && !continuation);
      if boundary && current != [] && pending == {} && !simpleCall {
        groups := groups + [current];
        current := [];
      }
      current := current + [item];
      pending := pending - IdSet(results);
      if continuation {
        simpleCall := false;
      }
      var calls := CallIds(item);
      if calls != [] && (!WellFormedIds(calls) || !Distinct(calls) || !(IdSet(calls) !! seen)) {
        return None;
      }
      pending := pending + IdSet(calls);
      seen := seen + IdSet(calls);
      if item.role == "assistant" && item.toolName != "" {
        simpleCall := true;
      }
      if IsSummary(item) && pending == {} {
        groups := groups + [current];
        current := [];
      }
    }
    if pending != {} { return None; }
    return Some(if current != [] then groups + [current] else groups);
  }
}
