/** Acceptance of a history stated without any scan: how its calls and results pair up. */
module InteractionPairs {
  import opened Results
  import opened Sequences
  import opened HistoryItems
  import opened Interactions
  import opened InteractionLaws

  function ResultSet(history: seq<Item>): set<Id> { IdSet(AllResults(history)) }

  /** Call identifiers are nonempty and globally unique, each is answered exactly once, and only
      by an item behind the one that makes the call. */
  predicate Paired(history: seq<Item>) {
    && WellFormedIds(AllCalls(history)) && Distinct(AllCalls(history))
    && Distinct(AllResults(history)) && ResultSet(history) == CallSet(history)
    && AnsweredEarlier(history, {})
  }

  /** Every result answers a call made by an earlier item, or one of `known`. */
  predicate AnsweredEarlier(history: seq<Item>, known: set<Id>) {
    forall j, r | 0 <= j < |history| && r in ResultIds(history[j]) :: r in known || r in AllCalls(history[..j])
  }

  /** The same, read from the front. */
  predicate Answers(history: seq<Item>, known: set<Id>)
    decreases |history|
  {
    history == [] ||
    (IdSet(ResultIds(history[0])) <= known && Answers(history[1..], known + IdSet(CallIds(history[0]))))
  }

  predicate Good(history: seq<Item>, pending: set<Id>, seen: set<Id>) {
    && WellFormedIds(AllCalls(history)) && Distinct(AllCalls(history)) && CallSet(history) !! seen
    && Distinct(AllResults(history)) && Answers(history, pending)
  }

  lemma {:induction false} DistinctConcat(a: seq<Id>, b: seq<Id>)
    ensures Distinct(a + b) <==> Distinct(a) && Distinct(b) && IdSet(a) !! IdSet(b)
  {
    var ab := a + b;
    if Distinct(ab) {
      forall i, j | 0 <= i < j < |a| ensures a[i] != a[j] { assert ab[i] != ab[j]; }
      forall i, j | 0 <= i < j < |b| ensures b[i] != b[j] { assert ab[|a| + i] != ab[|a| + j]; }
      forall i, j | 0 <= i < |a| && 0 <= j < |b| ensures a[i] != b[j] { assert ab[i] != ab[|a| + j]; }
    }
    if Distinct(a) && Distinct(b) && IdSet(a) !! IdSet(b) {
      forall i, j | 0 <= i < j < |ab| ensures ab[i] != ab[j] {
        if i < |a| && |a| <= j { assert ab[i] in IdSet(a) && ab[j] in IdSet(b); }
      }
    }
  }

  lemma {:induction false} WellFormedConcat(a: seq<Id>, b: seq<Id>)
    ensures WellFormedIds(a + b) <==> WellFormedIds(a) && WellFormedIds(b)
  {
    var ab := a + b;
    if WellFormedIds(ab) {
      forall i | 0 <= i < |a| ensures WellFormedId(a[i]) { assert WellFormedId(ab[i]); }
      forall i | 0 <= i < |b| ensures WellFormedId(b[i]) { assert WellFormedId(ab[|a| + i]); }
    }
  }

  /** Dropping already given answers from the known calls means they are not given again. */
  lemma {:induction false} AnswersDrop(history: seq<Item>, known: set<Id>, given: set<Id>)
    requires given !! CallSet(history)
    ensures Answers(history, known - given) <==> Answers(history, known) && ResultSet(history) !! given
    decreases |history|
  {
    hide ResultIds, CallIds, IdSet;
    if history != [] {
      var calls, results := IdSet(CallIds(history[0])), IdSet(ResultIds(history[0]));
      IdSetConcat(CallIds(history[0]), AllCalls(history[1..]));
      IdSetConcat(ResultIds(history[0]), AllResults(history[1..]));
      AnswersDrop(history[1..], known + calls, given);
      assert known + calls - given == known - given + calls;
    } else {
      assert ResultSet(history) == {} by { NoIds(); }
    }
  }

  lemma {:induction false} NoIds()
    ensures IdSet([]) == {}
  {
  }

  lemma {:induction false} GoodSplits(history: seq<Item>, pending: set<Id>, seen: set<Id>)
    requires history != []
    ensures var x, t := history[0], history[1..];
            Good(history, pending, seen) <==>
            && WellFormedIds(CallIds(x)) && Distinct(CallIds(x)) && IdSet(CallIds(x)) !! seen
            && Distinct(ResultIds(x)) && IdSet(ResultIds(x)) <= pending
            && WellFormedIds(AllCalls(t)) && Distinct(AllCalls(t)) && CallSet(t) !! seen + IdSet(CallIds(x))
            && Distinct(AllResults(t)) && ResultSet(t) !! IdSet(ResultIds(x))
            && Answers(t, pending + IdSet(CallIds(x)))
  {
    hide ResultIds, CallIds, IdSet, Distinct, WellFormedIds;
    var x, t := history[0], history[1..];
    DistinctConcat(CallIds(x), AllCalls(t));
    DistinctConcat(ResultIds(x), AllResults(t));
    WellFormedConcat(CallIds(x), AllCalls(t));
    IdSetConcat(CallIds(x), AllCalls(t));
  }

  predicate WellFormedSet(ids: set<Id>) { forall r | r in ids :: WellFormedId(r) }

  /** The scan succeeds exactly on good histories, and leaves the unanswered calls pending. */
  lemma {:induction false} TrackIsGood(history: seq<Item>, pending: set<Id>, seen: set<Id>)
    requires pending <= seen && WellFormedSet(pending)
    ensures Track(history, pending, seen).Some? <==> Good(history, pending, seen)
    ensures Good(history, pending, seen) ==>
              Track(history, pending, seen).value.0 == pending + CallSet(history) - ResultSet(history)
    decreases |history|
  {
    if history == [] {
      assert AllCalls(history) == [] && AllResults(history) == [];
    } else {
      var x, t := history[0], history[1..];
      var calls, results := IdSet(CallIds(x)), IdSet(ResultIds(x));
      GoodSplits(history, pending, seen);
      AllowedAre(x, pending, seen);
      hide ResultIds, CallIds, IdSet, Distinct, WellFormedIds, ResultsAllowed, CallsAllowed, WellFormedId;
      IdSetConcat(CallIds(x), AllCalls(t));
      IdSetConcat(ResultIds(x), AllResults(t));
      if TrackItem(x, pending, seen).Some? {
        var p, s := pending - results + calls, seen + calls;
        TrackIsGood(t, p, s);
        if CallSet(t) !! s {
          AnswersDrop(t, pending + calls, results);
          assert pending + calls - results == p;
          if Good(t, p, s) {
            assert p + CallSet(t) - ResultSet(t) == pending + CallSet(history) - ResultSet(history);
          }
        }
      }
    }
  }

  lemma {:induction false} AllowedAre(x: Item, pending: set<Id>, seen: set<Id>)
    requires pending <= seen && WellFormedSet(pending)
    ensures ResultsAllowed(ResultIds(x), pending) <==> Distinct(ResultIds(x)) && IdSet(ResultIds(x)) <= pending
    ensures CallsAllowed(CallIds(x), seen) <==>
              WellFormedIds(CallIds(x)) && Distinct(CallIds(x)) && IdSet(CallIds(x)) !! seen
    ensures CallsAllowed(CallIds(x), seen) ==>
              WellFormedSet(pending - IdSet(ResultIds(x)) + IdSet(CallIds(x)))
  {
    hide ResultIds, CallIds;
    var results, calls := ResultIds(x), CallIds(x);
    if IdSet(results) <= pending {
      forall i | 0 <= i < |results| ensures WellFormedId(results[i]) {
        assert results[i] in IdSet(results);
      }
    }
  }

  lemma {:induction false} AnswersByItem(history: seq<Item>, known: set<Id>)
    ensures Answers(history, known) <==> AnsweredEarlier(history, known)
    decreases |history|
  {
    hide ResultIds, CallIds;
    if history != [] {
      var x, t := history[0], history[1..];
      var more := known + IdSet(CallIds(x));
      AnswersByItem(t, more);
      forall j | 0 < j < |history|
        ensures history[j] == t[j - 1] && AllCalls(history[..j]) == CallIds(x) + AllCalls(t[..j - 1])
      {
        assert history[..j][1..] == t[..j - 1];
      }
      if Answers(history, known) {
        forall j, r | 0 <= j < |history| && r in ResultIds(history[j])
               ensures r in known || r in AllCalls(history[..j]) {
          if j > 0 { assert r in more || r in AllCalls(t[..j - 1]); } else { assert r in IdSet(ResultIds(x)); }
        }
      } else if IdSet(ResultIds(x)) <= known {
        var j, r :| 0 <= j < |t| && r in ResultIds(t[j]) && r !in more && r !in AllCalls(t[..j]);
        assert history[j + 1] == t[j];
        assert r !in AllCalls(history[..j + 1]);
      } else {
        var r :| r in IdSet(ResultIds(x)) && r !in known;
        assert r in ResultIds(history[0]) && AllCalls(history[..0]) == [];
      }
    }
  }

  /** The engine groups a history exactly when its calls and results pair up. */
  lemma {:induction false} GroupsExactlyWhenPaired(history: seq<Item>)
    ensures Groups(history).Some? <==> Paired(history)
  {
    AcceptedIsClosed(history);
    TrackIsGood(history, {}, {});
    AnswersByItem(history, {});
    hide ResultIds, CallIds, Distinct, WellFormedIds, Answers, AllCalls, AllResults, Track;
    if Track(history, {}, {}).Some? {
      TrackSeen(history, {}, {});
      ResultsAreCalls(history);
      var calls, results := CallSet(history), ResultSet(history);
      assert Track(history, {}, {}) == Some(({} + calls - results, {} + calls));
      assert {} + calls - results == {} <==> results == calls;
      assert Good(history, {}, {});
      assert AnsweredEarlier(history, {}) <==> Answers(history, {});
    } else {
      assert !Good(history, {}, {});
      assert !Paired(history) by { assert CallSet(history) !! {}; }
    }
  }

  lemma {:induction false} ResultsAreCalls(history: seq<Item>)
    requires Answers(history, {})
    ensures ResultSet(history) <= CallSet(history)
  {
    AnsweredCalls(history, {});
  }

  lemma {:induction false} AnsweredCalls(history: seq<Item>, known: set<Id>)
    requires Answers(history, known)
    ensures ResultSet(history) <= known + CallSet(history)
    decreases |history|
  {
    hide ResultIds, CallIds, IdSet;
    if history == [] {
      NoIds();
    } else {
      IdSetConcat(CallIds(history[0]), AllCalls(history[1..]));
      IdSetConcat(ResultIds(history[0]), AllResults(history[1..]));
      AnsweredCalls(history[1..], known + IdSet(CallIds(history[0])));
    }
  }

  lemma {:induction false} IdsSplit(history: seq<Item>, k: nat)
    requires k <= |history|
    ensures AllCalls(history) == AllCalls(history[..k]) + AllCalls(history[k..])
    ensures AllResults(history) == AllResults(history[..k]) + AllResults(history[k..])
  {
    assert history == history[..k] + history[k..];
    CallsConcat(history[..k], history[k..]);
    ResultsConcat(history[..k], history[k..]);
  }

  lemma {:induction false} CallsConcat(a: seq<Item>, b: seq<Item>)
    ensures AllCalls(a + b) == AllCalls(a) + AllCalls(b)
  {
    hide CallIds;
    if a == [] {
      assert a + b == b;
    } else {
      CallsConcat(a[1..], b);
      CallsUnfold(a);
      CallsUnfold(a + b);
      hide AllCalls;
      assert (a + b)[1..] == a[1..] + b;
      Reassociate(CallIds(a[0]), AllCalls(a[1..]), AllCalls(b));
    }
  }

  lemma {:induction false} CallsUnfold(a: seq<Item>)
    requires a != []
    ensures AllCalls(a) == CallIds(a[0]) + AllCalls(a[1..])
  {
    hide CallIds;
  }

  lemma {:induction false} ResultsUnfold(a: seq<Item>)
    requires a != []
    ensures AllResults(a) == ResultIds(a[0]) + AllResults(a[1..])
  {
    hide ResultIds;
  }

  lemma {:induction false} ResultsConcat(a: seq<Item>, b: seq<Item>)
    ensures AllResults(a + b) == AllResults(a) + AllResults(b)
  {
    hide ResultIds;
    if a == [] {
      assert a + b == b;
    } else {
      ResultsConcat(a[1..], b);
      ResultsUnfold(a);
      ResultsUnfold(a + b);
      hide AllResults;
      assert (a + b)[1..] == a[1..] + b;
      Reassociate(ResultIds(a[0]), AllResults(a[1..]), AllResults(b));
    }
  }

  lemma {:induction false} FindResult(history: seq<Item>, c: Id) returns (j: nat)
    requires c in AllResults(history)
    ensures j < |history| && c in ResultIds(history[j])
  {
    hide ResultIds;
    if c in ResultIds(history[0]) {
      j := 0;
    } else {
      j := FindResult(history[1..], c);
      j := j + 1;
    }
  }

  /** Each call of a paired history is answered by exactly one item, and that item comes later. */
  lemma {:induction false} AnsweredOnceLater(history: seq<Item>, i: nat, c: Id)
    requires Paired(history) && i < |history| && c in CallIds(history[i])
    ensures exists j :: i < j < |history| && c in ResultIds(history[j])
              && forall k | 0 <= k < |history| && c in ResultIds(history[k]) :: k == j
  {
    hide ResultIds, CallIds;
    IdsSplit(history, i);
    assert c in CallIds(history[i..][0]);
    assert c in AllCalls(history[i..]) && c in CallSet(history);
    var j := FindResult(history, c);
    var none: set<Id> := {};
    assert AnsweredEarlier(history, none);
    assert c in none || c in AllCalls(history[..j]);
    if j <= i { MadeTwice(history, j, i, c); }
    forall k | 0 <= k < |history| && c in ResultIds(history[k]) ensures k == j {
      if k < j { TwiceAnswered(history, k, j, c); } else if j < k { TwiceAnswered(history, j, k, c); }
    }
  }

  lemma {:induction false} MadeTwice(history: seq<Item>, j: nat, i: nat, c: Id)
    requires j <= i < |history| && c in AllCalls(history[..j]) && c in CallIds(history[i])
    ensures !Distinct(AllCalls(history))
  {
    hide *;
    IdsSplit(history, i);
    assert history[i..][0] == history[i];
    IdsSplit(history[..i], j);
    assert history[..i][..j] == history[..j];
    DistinctConcat(AllCalls(history[..i]), AllCalls(history[i..]));
    CallsUnfold(history[i..]);
    InIdSet(AllCalls(history[..i]), c);
    InIdSet(AllCalls(history[i..]), c);
  }

  lemma {:induction false} InIdSet(ids: seq<Id>, c: Id)
    ensures c in IdSet(ids) <==> c in ids
  {
  }

  lemma {:induction false} TwiceAnswered(history: seq<Item>, k: nat, j: nat, c: Id)
    requires k < j < |history| && c in ResultIds(history[k]) && c in ResultIds(history[j])
    ensures !Distinct(AllResults(history))
  {
    hide ResultIds;
    IdsSplit(history, j);
    assert history[j..][0] == history[j];
    IdsSplit(history[..j], k);
    assert history[..j][k..][0] == history[k];
    DistinctConcat(AllResults(history[..j]), AllResults(history[j..]));
    assert c in IdSet(AllResults(history[..j])) && c in IdSet(AllResults(history[j..]));
  }
}
