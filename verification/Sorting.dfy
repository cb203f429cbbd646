/** Stable sorting by a total order, and why the order of the input does not matter. */
module Sorting {

  ghost predicate TotalOrder<T(!new)>(leq: (T, T) -> bool) {
    && (forall a, b :: leq(a, b) || leq(b, a))
    && (forall a, b, c :: leq(a, b) && leq(b, c) ==> leq(a, c))
  }

  /** Behind everything that is not larger. */
  function Insert<T>(x: T, s: seq<T>, leq: (T, T) -> bool): (r: seq<T>)
    ensures |r| == |s| + 1
  {
    if s == [] || leq(s[|s| - 1], x) then s + [x]
    else Insert(x, s[..|s| - 1], leq) + [s[|s| - 1]]
  }

  function Sorted<T>(s: seq<T>, leq: (T, T) -> bool): (r: seq<T>)
    ensures |r| == |s|
  {
    if s == [] then [] else Insert(s[|s| - 1], Sorted(s[..|s| - 1], leq), leq)
  }

  lemma {:induction false} LastApart<T>(s: seq<T>)
    requires s != []
    ensures multiset(s) == multiset(s[..|s| - 1]) + multiset{s[|s| - 1]}
  {
    assert s == s[..|s| - 1] + [s[|s| - 1]];
  }

  lemma {:induction false} InsertKeeps<T>(x: T, s: seq<T>, leq: (T, T) -> bool)
    ensures multiset(Insert(x, s, leq)) == multiset(s) + multiset{x}
  {
    if s != [] && !leq(s[|s| - 1], x) {
      InsertKeeps(x, s[..|s| - 1], leq);
      LastApart(s);
    }
  }

  lemma {:induction false} SortedKeeps<T>(s: seq<T>, leq: (T, T) -> bool)
    ensures multiset(Sorted(s, leq)) == multiset(s)
  {
    if s != [] {
      SortedKeeps(s[..|s| - 1], leq);
      InsertKeeps(s[|s| - 1], Sorted(s[..|s| - 1], leq), leq);
      LastApart(s);
    }
  }

  /** Nothing before the last is larger than it, and so on downwards. */
  ghost predicate Ascending<T>(s: seq<T>, leq: (T, T) -> bool) {
    s == [] || (Ascending(s[..|s| - 1], leq) && forall x | x in s :: leq(x, s[|s| - 1]))
  }

  lemma {:induction false} Members<T>(a: seq<T>, b: seq<T>, x: T)
    requires multiset(a) == multiset(b)
    ensures x in a <==> x in b
  {
    assert x in a <==> x in multiset(a);
    assert x in b <==> x in multiset(b);
  }

  lemma {:induction false} AppendAscends<T(!new)>(s: seq<T>, x: T, leq: (T, T) -> bool)
    requires TotalOrder(leq) && Ascending(s, leq) && forall y | y in s :: leq(y, x)
    ensures Ascending(s + [x], leq)
  {
    assert leq(x, x) || leq(x, x);
    assert (s + [x])[..|s|] == s;
  }

  lemma {:induction false} InsertMembers<T>(x: T, s: seq<T>, leq: (T, T) -> bool, y: T)
    requires y in Insert(x, s, leq)
    ensures y == x || y in s
  {
    InsertKeeps(x, s, leq);
    assert y in multiset(Insert(x, s, leq));
  }

  lemma {:induction false} InsertAscends<T(!new)>(x: T, s: seq<T>, leq: (T, T) -> bool)
    requires TotalOrder(leq) && Ascending(s, leq)
    ensures Ascending(Insert(x, s, leq), leq)
  {
    if s == [] {
      AppendAscends(s, x, leq);
    } else if leq(s[|s| - 1], x) {
      forall y | y in s ensures leq(y, x) { assert leq(y, s[|s| - 1]); }
      AppendAscends(s, x, leq);
    } else {
      var shorter := Insert(x, s[..|s| - 1], leq);
      InsertAscends(x, s[..|s| - 1], leq);
      forall y | y in shorter ensures leq(y, s[|s| - 1]) {
        InsertMembers(x, s[..|s| - 1], leq, y);
        assert leq(s[|s| - 1], x) || leq(x, s[|s| - 1]);
        assert y != x ==> y in s;
      }
      AppendAscends(shorter, s[|s| - 1], leq);
    }
  }

  lemma {:induction false} SortedAscends<T(!new)>(s: seq<T>, leq: (T, T) -> bool)
    requires TotalOrder(leq)
    ensures Ascending(Sorted(s, leq), leq)
  {
    if s != [] {
      SortedAscends(s[..|s| - 1], leq);
      InsertAscends(s[|s| - 1], Sorted(s[..|s| - 1], leq), leq);
    }
  }

  /** Elements the order cannot tell apart are equal. */
  ghost predicate Distinguishes<T(!new)>(leq: (T, T) -> bool, s: seq<T>) {
    forall a, b | a in s && b in s && leq(a, b) && leq(b, a) :: a == b
  }

  lemma {:induction false} AscendingIsUnique<T(!new)>(a: seq<T>, b: seq<T>, leq: (T, T) -> bool)
    requires Ascending(a, leq) && Ascending(b, leq) && multiset(a) == multiset(b) && Distinguishes(leq, a)
    ensures a == b
  {
    hide *;
    assert |a| == |multiset(a)| == |multiset(b)| == |b|;
    if a != [] {
      LastAgrees(a, b, leq);
      WithoutLast(a, leq);
      WithoutLast(b, leq);
      StillDistinguishes(a, leq);
      AscendingIsUnique(a[..|a| - 1], b[..|b| - 1], leq);
      assert a == a[..|a| - 1] + [a[|a| - 1]] && b == b[..|b| - 1] + [b[|b| - 1]];
    }
  }

  lemma {:induction false} WithoutLast<T(!new)>(s: seq<T>, leq: (T, T) -> bool)
    requires s != [] && Ascending(s, leq)
    ensures Ascending(s[..|s| - 1], leq) && multiset(s[..|s| - 1]) == multiset(s) - multiset{s[|s| - 1]}
  {
    LastApart(s);
  }

  lemma {:induction false} StillDistinguishes<T(!new)>(s: seq<T>, leq: (T, T) -> bool)
    requires s != [] && Distinguishes(leq, s)
    ensures Distinguishes(leq, s[..|s| - 1])
  {
  }

  lemma {:induction false} LastAgrees<T(!new)>(a: seq<T>, b: seq<T>, leq: (T, T) -> bool)
    requires a != [] && b != [] && Ascending(a, leq) && Ascending(b, leq) && multiset(a) == multiset(b)
             && Distinguishes(leq, a)
    ensures a[|a| - 1] == b[|b| - 1]
  {
    Members(a, b, a[|a| - 1]);
    Members(a, b, b[|b| - 1]);
  }

  /** Sorting forgets the order of the input. */
  lemma {:induction false} SortedForgetsOrder<T(!new)>(a: seq<T>, b: seq<T>, leq: (T, T) -> bool)
    requires TotalOrder(leq) && multiset(a) == multiset(b) && Distinguishes(leq, a)
    ensures Sorted(a, leq) == Sorted(b, leq)
  {
    SortedKeeps(a, leq);
    SortedKeeps(b, leq);
    SortedAscends(a, leq);
    SortedAscends(b, leq);
    forall x, y | x in Sorted(a, leq) && y in Sorted(a, leq) && leq(x, y) && leq(y, x)
      ensures x == y
    {
      Members(Sorted(a, leq), a, x);
      Members(Sorted(a, leq), a, y);
    }
    AscendingIsUnique(Sorted(a, leq), Sorted(b, leq), leq);
  }

  // ----- text order

  /** Text is compared character by character, a prefix first. */
  predicate TextLeq(a: string, b: string) {
    a == [] || (b != [] && (a[0] < b[0] || (a[0] == b[0] && TextLeq(a[1..], b[1..]))))
  }

  lemma {:induction false} TextTotal(a: string, b: string)
    ensures TextLeq(a, b) || TextLeq(b, a)
    ensures TextLeq(a, b) && TextLeq(b, a) ==> a == b
  {
    if a != [] && b != [] {
      TextTotal(a[1..], b[1..]);
      assert a == [a[0]] + a[1..] && b == [b[0]] + b[1..];
    }
  }

  lemma {:induction false} TextTransitive(a: string, b: string, c: string)
    requires TextLeq(a, b) && TextLeq(b, c)
    ensures TextLeq(a, c)
  {
    if a != [] && b != [] && c != [] && a[0] == b[0] == c[0] {
      TextTransitive(a[1..], b[1..], c[1..]);
    }
  }
}
