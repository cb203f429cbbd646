/** All outcomes of the scanner in terms of bracket groups: complete, cut short, or beyond repair. */
module JsonOutcomes {
  import opened JsonRecovery
  import opened JsonGroups

  /** The text is one whole bracket group. */
  ghost predicate IsGroup(text: string) {
    exists opener: char, inner: seq<Piece> :: Proper(Group(opener, inner)) && text == Print(Group(opener, inner))
  }

  /** A group begins the text. */
  ghost predicate BeginsWithGroup(text: string) {
    exists n | 0 <= n <= |text| :: IsGroup(text[..n])
  }

  /** Something written behind the text makes it a group. */
  ghost predicate IsCutShort(text: string) {
    exists more: string :: more != "" && IsGroup(text + more)
  }

  // ----- an open scan can always be finished

  /** What closes the open brackets, innermost first. */
  function Closers(stack: seq<char>): string {
    if stack == [] then "" else [stack[|stack| - 1]] + Closers(stack[..|stack| - 1])
  }

  predicate AllClosers(stack: seq<char>) { forall c | c in stack :: IsCloser(c) }

  lemma {:induction false} ClosersClose(stack: seq<char>)
    requires stack != [] && AllClosers(stack)
    ensures Run(Scan(stack, false, false), Closers(stack)) == ClosedAt(|Closers(stack)|)
  {
    var s, last, front := Scan(stack, false, false), stack[|stack| - 1], stack[..|stack| - 1];
    var text := Closers(stack);
    assert IsCloser(last);
    assert text[0] == last && text[1..] == Closers(front);
    if front == [] {
      assert Closers(front) == "";
      assert Run(s, text) == ClosedAt(1);
    } else {
      assert Step(s, last) == Open(Scan(front, false, false));
      ClosersClose(front);
    }
  }

  /** First out of the string, if the scan is inside one, and then all brackets. */
  function Finish(s: Scan): string {
    (if !s.inString then "" else if s.escaped then "\"\"" else "\"") + Closers(s.stack)
  }

  lemma {:induction false} QuoteLeaves(stack: seq<char>, escaped: bool)
    ensures Run(Scan(stack, true, escaped), if escaped then "\"\"" else "\"") == Open(Scan(stack, false, false))
  {
    RunOne(Scan(stack, true, false), '"');
    if escaped {
      RunOne(Scan(stack, true, true), '"');
      RunConcat(Scan(stack, true, true), ['"'], ['"']);
      assert ['"'] + ['"'] == "\"\"";
    }
    hide Run;
  }

  lemma {:induction false} FinishCloses(s: Scan)
    requires s.stack != [] && AllClosers(s.stack)
    requires !s.inString ==> !s.escaped
    ensures Run(s, Finish(s)) == ClosedAt(|Finish(s)|) && Finish(s) != ""
  {
    ClosersClose(s.stack);
    hide Run, Closers;
    if s.inString {
      QuoteLeaves(s.stack, s.escaped);
      RunConcat(s, if s.escaped then "\"\"" else "\"", Closers(s.stack));
    } else {
      assert "" + Closers(s.stack) == Closers(s.stack);
      assert s == Scan(s.stack, false, false);
      ClosersNotEmpty(s.stack);
    }
  }

  lemma {:induction false} ClosersNotEmpty(stack: seq<char>)
    requires stack != []
    ensures Closers(stack) != ""
  {
  }

  /** From the first opener on, an open scan is inside a bracket. */
  predicate Inside(s: Scan) { s.stack != [] && AllClosers(s.stack) && (!s.inString ==> !s.escaped) }

  lemma {:induction false} StepStaysInside(s: Scan, c: char)
    requires Inside(s) && Step(s, c).Open?
    ensures Inside(Step(s, c).scan)
  {
  }

  lemma {:induction false} RunStaysInside(s: Scan, text: string)
    requires Inside(s) && Run(s, text).Open?
    ensures Inside(Run(s, text).scan)
    decreases |text|
  {
    if text != "" {
      hide Inside, Step;
      StepStaysInside(s, text[0]);
      RunStaysInside(Step(s, text[0]).scan, text[1..]);
    }
  }

  lemma {:induction false} OpenIsInside(text: string)
    requires text != "" && IsOpener(text[0]) && Run(START, text).Open?
    ensures Inside(Run(START, text).scan)
  {
    var next := Step(START, text[0]).scan;
    assert [] + [CloserOf(text[0])] == [CloserOf(text[0])];
    assert Inside(next);
    RunStaysInside(next, text[1..]);
  }

  // ----- the outcomes

  lemma {:induction false} ClosedIsGroup(text: string)
    requires text != "" && IsOpener(text[0]) && Run(START, text) == ClosedAt(|text|)
    ensures IsGroup(text)
  {
    hide Run, Print, Proper;
    var opener, inner, after := ParseGroup(text);
    assert text[..|text|] == text;
  }

  lemma {:induction false} GroupCloses(text: string)
    requires IsGroup(text)
    ensures text != "" && IsOpener(text[0]) && Run(START, text) == ClosedAt(|text|)
  {
    var opener: char, inner: seq<Piece> :| Proper(Group(opener, inner)) && text == Print(Group(opener, inner));
    RunGroup([], opener, inner);
    GroupStarts(opener, inner);
    hide Run, Print;
  }

  lemma {:induction false} ClosedBegins(text: string)
    requires text != "" && IsOpener(text[0])
    ensures Run(START, text).ClosedAt? <==> BeginsWithGroup(text)
    ensures Run(START, text).ClosedAt? ==> IsGroup(text[..Run(START, text).length])
    ensures forall n | 0 <= n <= |text| && IsGroup(text[..n]) :: Run(START, text) == ClosedAt(n)
  {
    hide Run, IsGroup;
    if Run(START, text).ClosedAt? {
      var n := Run(START, text).length;
      CutCloses(text, n);
      ClosedIsGroup(text[..n]);
    }
    forall n | 0 <= n <= |text| && IsGroup(text[..n]) ensures Run(START, text) == ClosedAt(n) {
      GroupCloses(text[..n]);
      assert text == text[..n] + text[n..];
      RunConcat(START, text[..n], text[n..]);
    }
  }

  lemma {:induction false} CutCloses(text: string, n: nat)
    requires Run(START, text) == ClosedAt(n) && n <= |text|
    ensures Run(START, text[..n]) == ClosedAt(n)
  {
    hide Run;
    assert text == text[..n] + text[n..];
    RunConcat(START, text[..n], text[n..]);
    if Run(START, text[..n]).Open? { TailNeedsLength(Run(START, text[..n]).scan, text[n..], n); }
  }

  lemma {:induction false} TailNeedsLength(s: Scan, tail: string, n: nat)
    ensures Shift(Run(s, tail), n) != ClosedAt(n)
  {
    hide Run;
  }

  lemma {:induction false} OpenIsCutShort(text: string)
    requires text != "" && IsOpener(text[0])
    ensures Run(START, text).Open? <==> IsCutShort(text)
  {
    hide Run, IsGroup, Finish, Inside;
    if Run(START, text).Open? {
      var s := Run(START, text).scan;
      OpenIsInside(text);
      InsideFinishes(s);
      RunConcat(START, text, Finish(s));
      ClosedIsGroup(text + Finish(s));
    }
    if IsCutShort(text) {
      var more :| more != "" && IsGroup(text + more);
      GroupCloses(text + more);
      NoPrefixCloses(START, text + more, |text|);
      assert (text + more)[..|text|] == text;
    }
  }

  lemma {:induction false} InsideFinishes(s: Scan)
    requires Inside(s)
    ensures Run(s, Finish(s)) == ClosedAt(|Finish(s)|) && Finish(s) != ""
  {
    FinishCloses(s);
  }

  /** Exactly what is recovered. Without an opener nothing is. Otherwise let `rest` be the text from the first
      opener on: the group it begins with, if it begins with one; the whole of it, as incomplete, exactly when
      something written behind it would make it a group; and nothing when no continuation could. */
  lemma {:induction false} RecoveredExactly(text: string, start: nat)
    requires start <= |text| && (forall j | 0 <= j < start :: !IsOpener(text[j]))
    requires start < |text| ==> IsOpener(text[start])
    ensures var rest := text[start..];
            && (start == |text| ==> Balanced(text) == ("", false))
            && (forall n | 0 <= n <= |rest| && IsGroup(rest[..n]) :: Balanced(text) == (rest[..n], true))
            && (Balanced(text).1 ==> BeginsWithGroup(rest))
            && (start < |text| && !BeginsWithGroup(rest) ==>
                  Balanced(text) == (if IsCutShort(rest) then rest else "", false))
  {
    hide Run, IsGroup, IsCutShort, BeginsWithGroup;
    var rest := text[start..];
    if start == |text| {
      NoOpener(text);
      NothingIsNoGroup();
      assert forall n | 0 <= n <= |rest| :: rest[..n] == "";
    } else {
      FirstOpenerIs(text, start);
      ClosedBegins(rest);
      OpenIsCutShort(rest);
    }
  }

  lemma {:induction false} NothingIsNoGroup()
    ensures !IsGroup("")
  {
    hide IsGroup;
    if IsGroup("") { GroupCloses(""); }
  }

  lemma {:induction false} NoOpener(text: string)
    requires forall j | 0 <= j < |text| :: !IsOpener(text[j])
    ensures Balanced(text) == ("", false)
  {
    hide Run;
    assert FirstOpener(text) == |text|;
  }
}
