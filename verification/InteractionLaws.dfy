/** What the grouping scan accepts and what its groups are. */
module InteractionLaws {
  import opened Results
  import opened HistoryItems
  import opened Interactions

  // ----- the scan without its grouping: pending and seen calls only

  function TrackItem(item: Item, pending: set<Id>, seen: set<Id>): Option<(set<Id>, set<Id>)> {
    var results, calls := ResultIds(item), CallIds(item);
    if !ResultsAllowed(results, pending) || !CallsAllowed(calls, seen) then None
    else Some((pending - IdSet(results) + IdSet(calls), seen + IdSet(calls)))
  }

  function Track(history: seq<Item>, pending: set<Id>, seen: set<Id>): Option<(set<Id>, set<Id>)>
    decreases |history|
  {
    if history == [] then Some((pending, seen))
    else
      match TrackItem(history[0], pending, seen)
      case None => None
      case Some((p, s)) => Track(history[1..], p, s)
  }

  function AllCalls(history: seq<Item>): seq<Id> {
    if history == [] then [] else CallIds(history[0]) + AllCalls(history[1..])
  }

  function AllResults(history: seq<Item>): seq<Id> {
    if history == [] then [] else ResultIds(history[0]) + AllResults(history[1..])
  }

  function CallSet(history: seq<Item>): set<Id> { IdSet(AllCalls(history)) }

  /** Every call made is answered inside, and no call was seen before. */
  predicate Closed(history: seq<Item>, seen: set<Id>) {
    Track(history, {}, seen) == Some(({}, seen + CallSet(history)))
  }

  lemma {:induction false} IdSetConcat(a: seq<Id>, b: seq<Id>)
    ensures IdSet(a + b) == IdSet(a) + IdSet(b)
  {
  }

  lemma {:induction false} RunOneMore(s: Scan, history: seq<Item>, item: Item)
    requires Run(s, history).Some?
    ensures Run(s, history + [item]) == Step(Run(s, history).value, item)
    decreases |history|
  {
    hide Step;
    if history == [] {
      assert [item][1..] == [] && [] + [item] == [item];
    } else {
      assert (history + [item])[1..] == history[1..] + [item];
      RunOneMore(Step(s, history[0]).value, history[1..], item);
    }
  }

  lemma {:induction false} RunTracks(s: Scan, history: seq<Item>)
    ensures match Run(s, history)
            case None => Track(history, s.pending, s.seen) == None
            case Some(end) => Track(history, s.pending, s.seen) == Some((end.pending, end.seen))
    decreases |history|
  {
    hide ResultIds, CallIds, IsSummary, ResultsAllowed, CallsAllowed, Boundary, Continues;
    if history != [] {
      match Step(s, history[0])
      case None =>
      case Some(next) => RunTracks(next, history[1..]);
    }
  }

  lemma {:induction false} TrackSeen(history: seq<Item>, pending: set<Id>, seen: set<Id>)
    requires Track(history, pending, seen).Some?
    ensures Track(history, pending, seen).value.1 == seen + CallSet(history)
    decreases |history|
  {
    hide ResultIds, CallIds, ResultsAllowed, CallsAllowed;
    if history != [] {
      var (p, s) := TrackItem(history[0], pending, seen).value;
      TrackSeen(history[1..], p, s);
      IdSetConcat(CallIds(history[0]), AllCalls(history[1..]));
    }
  }

  lemma {:induction false} TrackConcat(a: seq<Item>, b: seq<Item>, pending: set<Id>, seen: set<Id>)
    ensures Track(a + b, pending, seen) ==
            match Track(a, pending, seen) case None => None case Some((p, s)) => Track(b, p, s)
    decreases |a|
  {
    hide TrackItem;
    if a == [] {
      assert a + b == b;
    } else {
      assert (a + b)[1..] == a[1..] + b;
      match TrackItem(a[0], pending, seen)
      case None =>
      case Some((p, s)) => TrackConcat(a[1..], b, p, s);
    }
  }

  /** Forgetting some seen calls refuses nothing and leaves the same calls pending. */
  lemma {:induction false} TrackFewerSeen(history: seq<Item>, pending: set<Id>, seen: set<Id>, fewer: set<Id>)
    requires fewer <= seen && Track(history, pending, seen).Some?
    ensures Track(history, pending, fewer)
            == Some((Track(history, pending, seen).value.0, fewer + CallSet(history)))
    decreases |history|
  {
    hide ResultIds, CallIds, ResultsAllowed;
    if history == [] {
      assert fewer + CallSet([]) == fewer;
    } else {
      var (p, s) := TrackItem(history[0], pending, seen).value;
      var fewer' := fewer + IdSet(CallIds(history[0]));
      assert TrackItem(history[0], pending, fewer) == Some((p, fewer'));
      TrackFewerSeen(history[1..], p, s, fewer');
      IdSetConcat(CallIds(history[0]), AllCalls(history[1..]));
      assert fewer' + CallSet(history[1..]) == fewer + CallSet(history);
    }
  }

  lemma {:induction false} CallSetConcat(a: seq<Item>, b: seq<Item>)
    ensures CallSet(a + b) == CallSet(a) + CallSet(b)
  {
    hide CallIds;
    if a == [] {
      assert a + b == b;
    } else {
      assert (a + b)[1..] == a[1..] + b;
      CallSetConcat(a[1..], b);
      IdSetConcat(CallIds(a[0]), AllCalls(a[1..]));
      IdSetConcat(CallIds(a[0]), AllCalls(a[1..] + b));
    }
  }

  lemma {:induction false} ClosedConcat(a: seq<Item>, b: seq<Item>, seen: set<Id>)
    requires Closed(a, seen) && Closed(b, seen + CallSet(a))
    ensures Closed(a + b, seen)
  {
    TrackConcat(a, b, {}, seen);
    CallSetConcat(a, b);
    assert seen + CallSet(a) + CallSet(b) == seen + CallSet(a + b);
  }

  /** A history is accepted exactly when its calls and results pair up over the whole of it. */
  lemma {:induction false} AcceptedIsClosed(history: seq<Item>)
    ensures Groups(history).Some? <==> Closed(history, {})
  {
    RunTracks(START, history);
    if Track(history, {}, {}).Some? {
      TrackSeen(history, {}, {});
      assert {} + CallSet(history) == CallSet(history);
    }
  }

  // ----- groups

  /** Groups that are nonempty and self-contained, with no call made twice. */
  predicate GoodGroups(groups: seq<seq<Item>>, seen: set<Id>) {
    groups == [] ||
    (groups[0] != [] && Closed(groups[0], seen) && GoodGroups(groups[1..], seen + CallSet(groups[0])))
  }

  lemma {:induction false} NoCalls()
    ensures CallSet([]) == {}
  {
  }

  lemma {:induction false} GoodGroupsAppend(groups: seq<seq<Item>>, group: seq<Item>, seen: set<Id>)
    requires GoodGroups(groups, seen) && group != [] && Closed(group, seen + CallSet(Flatten(groups)))
    ensures GoodGroups(groups + [group], seen)
  {
    hide Closed, CallSet;
    if groups == [] {
      NoCalls();
      assert seen + CallSet(Flatten(groups)) == seen;
      assert groups + [group] == [group];
    } else {
      CallSetConcat(groups[0], Flatten(groups[1..]));
      assert seen + CallSet(groups[0]) + CallSet(Flatten(groups[1..])) == seen + CallSet(Flatten(groups));
      GoodGroupsAppend(groups[1..], group, seen + CallSet(groups[0]));
      assert (groups + [group])[1..] == groups[1..] + [group];
    }
  }

  lemma {:induction false} GoodGroupsAreClosed(groups: seq<seq<Item>>, seen: set<Id>)
    requires GoodGroups(groups, seen)
    ensures Closed(Flatten(groups), seen)
  {
    if groups == [] {
      assert seen + CallSet([]) == seen;
    } else {
      GoodGroupsAreClosed(groups[1..], seen + CallSet(groups[0]));
      hide Closed;
      ClosedConcat(groups[0], Flatten(groups[1..]), seen);
    }
  }

  /** What the scan state says about the items scanned so far. */
  ghost predicate Covers(s: Scan, done: seq<Item>) {
    && Flatten(s.groups) + s.current == done
    && GoodGroups(s.groups, {})
    && Track(s.current, {}, CallSet(Flatten(s.groups))) == Some((s.pending, s.seen))
  }

  lemma {:induction false} TrackOneMore(history: seq<Item>, item: Item, pending: set<Id>, seen: set<Id>)
    requires Track(history, pending, seen).Some?
    ensures Track(history + [item], pending, seen)
            == TrackItem(item, Track(history, pending, seen).value.0, Track(history, pending, seen).value.1)
  {
    hide TrackItem;
    TrackConcat(history, [item], pending, seen);
    var (p, s) := Track(history, pending, seen).value;
    assert [item][1..] == [];
    assert Track([item], p, s) == TrackItem(item, p, s);
  }

  lemma {:induction false} PushCurrent(groups: seq<seq<Item>>, current: seq<Item>, seen: set<Id>)
    requires GoodGroups(groups, {}) && current != []
    requires Track(current, {}, CallSet(Flatten(groups))) == Some(({}, seen))
    ensures GoodGroups(groups + [current], {})
    ensures CallSet(Flatten(groups + [current])) == seen
    ensures Flatten(groups + [current]) == Flatten(groups) + current
  {
    hide GoodGroups;
    TrackSeen(current, {}, CallSet(Flatten(groups)));
    assert {} + CallSet(Flatten(groups)) == CallSet(Flatten(groups));
    GoodGroupsAppend(groups, current, {});
    FlattenConcat(groups, [current]);
    FlattenOne(current);
    CallSetConcat(Flatten(groups), current);
  }

  lemma {:induction false} StepCovers(s: Scan, item: Item, done: seq<Item>)
    requires Covers(s, done) && Step(s, item).Some?
    ensures Covers(Step(s, item).value, done + [item])
  {
    hide ResultIds, CallIds, IsSummary, ResultsAllowed, CallsAllowed, GoodGroups, Track, IdSet;
    var closes := Boundary(item, s.simpleCall) && s.current != [] && s.pending == {} && !s.simpleCall;
    if closes { PushCurrent(s.groups, s.current, s.seen); }
    var groups := if closes then s.groups + [s.current] else s.groups;
    var before := if closes then [] else s.current;
    assert Flatten(groups) + before == done;
    assert Track(before, {}, CallSet(Flatten(groups)))
           == Some((s.pending, s.seen)) by { TrackNothing(CallSet(Flatten(groups))); }
    TrackOneMore(before, item, {}, CallSet(Flatten(groups)));
    var current := before + [item];
    var pending, seen := s.pending - IdSet(ResultIds(item)) + IdSet(CallIds(item)), s.seen + IdSet(CallIds(item));
    assert Track(current, {}, CallSet(Flatten(groups))) == Some((pending, seen));
    assert Flatten(groups) + current == done + [item];
    if IsSummary(item) && pending == {} {
      PushCurrent(groups, current, seen);
      TrackNothing(CallSet(Flatten(groups + [current])));
    }
  }

  lemma {:induction false} TrackNothing(seen: set<Id>)
    ensures Track([], {}, seen) == Some(({}, seen))
  {
  }

  lemma {:induction false} RunCovers(s: Scan, done: seq<Item>, history: seq<Item>)
    requires Covers(s, done) && Run(s, history).Some?
    ensures Covers(Run(s, history).value, done + history)
    decreases |history|
  {
    hide Step, Covers;
    if history == [] {
      assert done + history == done;
    } else {
      StepCovers(s, history[0], done);
      RunCovers(Step(s, history[0]).value, done + [history[0]], history[1..]);
      assert done + [history[0]] + history[1..] == done + history;
    }
  }

  /** The groups of an accepted history are nonempty and concatenate to it, and each contains both
      ends of every call it mentions. */
  lemma {:induction false} GroupsAreInteractions(history: seq<Item>)
    requires Groups(history).Some?
    ensures Flatten(Groups(history).value) == history
    ensures GoodGroups(Groups(history).value, {})
  {
    assert Covers(START, []) by {
      TrackNothing({});
      assert CallSet(Flatten([])) == {} && Flatten([]) + [] == [];
    }
    RunCovers(START, [], history);
    assert [] + history == history;
    var s := Run(START, history).value;
    hide GoodGroups, Track, Run;
    if s.current != [] {
      PushCurrent(s.groups, s.current, s.seen);
    } else {
      assert Flatten(s.groups) + [] == Flatten(s.groups);
    }
  }
}
