/** The loop shared by the rewriting stages: replace the oldest eligible entry by its marker until
    the whole is small enough or nothing is eligible. */
module Rewriting {

  /** The entries below `cut` that are eligible are replaced by their markers. */
  function Rewritten<T>(items: seq<T>, cut: nat, eligible: (nat, T) -> bool, mark: (nat, T) -> T): (r: seq<T>)
    ensures |r| == |items|
    ensures forall i | 0 <= i < |items| ::
            r[i] == if i < cut && eligible(i, items[i]) then mark(i, items[i]) else items[i]
  {
    seq(|items|, i requires 0 <= i < |items| =>
          if i < cut && eligible(i, items[i]) then mark(i, items[i]) else items[i])
  }

  /** The least cut from `from` on whose rewriting meets the threshold, or the end. */
  function LeastCut<T>(items: seq<T>, from: nat, eligible: (nat, T) -> bool, mark: (nat, T) -> T,
                       tokens: seq<T> -> nat, threshold: int): (cut: nat)
    requires from <= |items|
    ensures from <= cut <= |items|
    ensures tokens(Rewritten(items, cut, eligible, mark)) <= threshold || cut == |items|
    ensures forall c | from <= c < cut :: tokens(Rewritten(items, c, eligible, mark)) > threshold
    decreases |items| - from
  {
    if tokens(Rewritten(items, from, eligible, mark)) <= threshold || from == |items| then from
    else LeastCut(items, from + 1, eligible, mark, tokens, threshold)
  }

  lemma {:induction false} RewriteFirst<T>(items: seq<T>, cut: nat, first: nat, eligible: (nat, T) -> bool,
                                           mark: (nat, T) -> T)
    requires cut <= first <= |items|
    requires forall i | cut <= i < first :: !eligible(i, items[i])
    ensures Rewritten(items, first, eligible, mark) == Rewritten(items, cut, eligible, mark)
  {
  }

  lemma {:induction false} CutSkips<T>(items: seq<T>, cut: nat, first: nat, eligible: (nat, T) -> bool,
                                       mark: (nat, T) -> T,
                                       tokens: seq<T> -> nat, threshold: int)
    requires cut <= first <= |items|
    requires forall i | cut <= i < first :: !eligible(i, items[i])
    requires tokens(Rewritten(items, cut, eligible, mark)) > threshold
    ensures LeastCut(items, cut, eligible, mark, tokens, threshold)
         == LeastCut(items, if first < |items| then first + 1 else first, eligible, mark, tokens, threshold)
    decreases first - cut
  {
    if cut < first {
      RewriteFirst(items, cut, cut + 1, eligible, mark);
      CutSkips(items, cut + 1, first, eligible, mark, tokens, threshold);
    }
  }

  /** Below the cut nothing is eligible any more, for a marker never is. */
  lemma {:induction false} EligibleBehindCut<T(!new)>(items: seq<T>, cut: nat, i: nat, eligible: (nat, T) -> bool,
                                                      mark: (nat, T) -> T)
    requires cut <= |items| && forall k: nat, x: T :: !eligible(k, mark(k, x))
    requires i <= |items| && (i < |items| ==> eligible(i, Rewritten(items, cut, eligible, mark)[i]))
    requires forall j | 0 <= j < i :: !eligible(j, Rewritten(items, cut, eligible, mark)[j])
    ensures cut <= i && forall j | cut <= j < i :: !eligible(j, items[j])
  {
    hide Rewritten;
    forall j | cut <= j < i ensures !eligible(j, items[j]) {
      assert Rewritten(items, cut, eligible, mark)[j] == items[j];
    }
  }

  lemma {:induction false} MarkedNext<T>(items: seq<T>, cut: nat, i: nat, eligible: (nat, T) -> bool,
                                         mark: (nat, T) -> T)
    requires cut <= i < |items| && eligible(i, Rewritten(items, cut, eligible, mark)[i])
    requires forall j | cut <= j < i :: !eligible(j, items[j])
    ensures var working := Rewritten(items, cut, eligible, mark);
            working[i := mark(i, working[i])] == Rewritten(items, i + 1, eligible, mark)
  {
    hide Rewritten;
  }

  /** Terminates because a marker is never eligible: each round rewrites one more entry. */
  method RewriteOldest<T(!new)>(items: seq<T>, eligible: (nat, T) -> bool, mark: (nat, T) -> T,
                                tokens: seq<T> -> nat, threshold: int)
    returns (working: seq<T>)
    requires forall i: nat, x: T :: !eligible(i, mark(i, x))
    ensures working == Rewritten(items, LeastCut(items, 0, eligible, mark, tokens, threshold), eligible, mark)
  {
    hide Rewritten, LeastCut;
    working := items;
    ghost var cut := 0;
    while tokens(working) > threshold
      invariant cut <= |items|
      invariant working == Rewritten(items, cut, eligible, mark)
      invariant LeastCut(items, 0, eligible, mark, tokens, threshold)
                == LeastCut(items, cut, eligible, mark, tokens, threshold)
      decreases |items| - cut
    {
      var i := 0;
      while i < |working| && !eligible(i, working[i])
        invariant 0 <= i <= |working|
        invariant forall j | 0 <= j < i :: !eligible(j, working[j])
      {
        i := i + 1;
      }
      EligibleBehindCut(items, cut, i, eligible, mark);
      CutSkips(items, cut, i, eligible, mark, tokens, threshold);
      if i == |working| {
        RewriteFirst(items, cut, i, eligible, mark);
        break;
      }
      MarkedNext(items, cut, i, eligible, mark);
      working := working[i := mark(i, working[i])];
      cut := i + 1;
    }
  }
}
