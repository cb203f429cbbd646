/** What the scanner accepts: exactly the printed bracket groups. */
module JsonGroups {
  import opened JsonRecovery

  // ----- bracket groups

  /** A character of a quoted text, alone or behind a backslash. */
  datatype Unit = Raw(c: char) | Escaped(c: char)

  datatype Piece = Plain(c: char) | Quoted(body: seq<Unit>) | Group(opener: char, inner: seq<Piece>)

  predicate ProperUnit(u: Unit) { u.Raw? ==> u.c != '"' && u.c != '\\' }

  predicate ProperUnits(body: seq<Unit>) { forall u | u in body :: ProperUnit(u) }

  /** Plain characters are neither quotes nor brackets. */
  predicate Proper(p: Piece) {
    match p
    case Plain(c) => c != '"' && !IsOpener(c) && !IsCloser(c)
    case Quoted(body) => ProperUnits(body)
    case Group(opener, inner) => IsOpener(opener) && forall q | q in inner :: Proper(q)
  }

  function PrintUnit(u: Unit): string { if u.Raw? then [u.c] else ['\\', u.c] }

  function PrintUnits(body: seq<Unit>): string {
    if body == [] then "" else PrintUnit(body[0]) + PrintUnits(body[1..])
  }

  function Print(p: Piece): string
    decreases p, 0
  {
    match p
    case Plain(c) => [c]
    case Quoted(body) => "\"" + PrintUnits(body) + "\""
    case Group(opener, inner) => [opener] + PrintAll(inner) + [CloserOf(opener)]
  }

  function PrintAll(ps: seq<Piece>): string
    decreases ps, 1
  {
    if ps == [] then "" else Print(ps[0]) + PrintAll(ps[1..])
  }

  // ----- printed groups are accepted

  /** Running over a text that stays open continues with what follows. */
  lemma {:induction false} RunConcat(s: Scan, a: string, b: string)
    ensures Run(s, a + b) == if Run(s, a).Open? then Shift(Run(Run(s, a).scan, b), |a|) else Run(s, a)
    decreases |a|
  {
    if a == [] {
      assert a + b == b;
    } else {
      assert (a + b)[1..] == a[1..] + b;
      hide Step;
      if Step(s, a[0]).Open? { RunConcat(Step(s, a[0]).scan, a[1..], b); }
    }
  }

  lemma {:induction false} RunOne(s: Scan, c: char)
    ensures Run(s, [c]) == Step(s, c)
  {
    assert [c][1..] == [];
    var next := Step(s, c);
    hide Step;
    if next.Open? { assert Run(next.scan, [c][1..]) == Open(next.scan); }
    StepCloses(s, c);
  }

  lemma {:induction false} StepCloses(s: Scan, c: char)
    ensures Step(s, c).ClosedAt? ==> Step(s, c) == ClosedAt(1)
  {
  }

  predicate Stays(s: Scan, text: string) { Run(s, text) == Open(s) }

  lemma {:induction false} StaysConcat(s: Scan, a: string, b: string)
    requires Stays(s, a) && Stays(s, b)
    ensures Stays(s, a + b)
  {
    RunConcat(s, a, b);
    hide Run;
  }

  lemma {:induction false} UnitStays(stack: seq<char>, u: Unit)
    requires ProperUnit(u)
    ensures Stays(Scan(stack, true, false), PrintUnit(u))
  {
    var s := Scan(stack, true, false);
    if u.Raw? {
      RunOne(s, u.c);
    } else {
      RunOne(s, '\\');
      RunOne(s.(escaped := true), u.c);
      RunConcat(s, ['\\'], [u.c]);
      assert ['\\'] + [u.c] == PrintUnit(u);
    }
  }

  lemma {:induction false} UnitsStay(stack: seq<char>, body: seq<Unit>)
    requires ProperUnits(body)
    ensures Stays(Scan(stack, true, false), PrintUnits(body))
  {
    if body != [] {
      UnitStays(stack, body[0]);
      UnitsStay(stack, body[1..]);
      hide Stays, PrintUnit;
      StaysConcat(Scan(stack, true, false), PrintUnit(body[0]), PrintUnits(body[1..]));
    }
  }

  lemma {:induction false} QuotedStays(stack: seq<char>, body: seq<Unit>)
    requires ProperUnits(body)
    ensures Stays(Scan(stack, false, false), Print(Quoted(body)))
  {
    var outside, inside := Scan(stack, false, false), Scan(stack, true, false);
    UnitsStay(stack, body);
    RunOne(outside, '"');
    RunOne(inside, '"');
    hide Run, PrintUnits;
    RunConcat(inside, PrintUnits(body), "\"");
    RunConcat(outside, "\"", PrintUnits(body) + "\"");
    assert "\"" + (PrintUnits(body) + "\"") == Print(Quoted(body));
  }

  /** What a group does to the scanner: nothing inside another group, and at the outside it closes
      at its very last character. */
  lemma {:induction false} RunGroup(stack: seq<char>, opener: char, inner: seq<Piece>)
    requires Proper(Group(opener, inner))
    ensures var text := Print(Group(opener, inner));
            Run(Scan(stack, false, false), text) == if stack == [] then ClosedAt(|text|)
              else Open(Scan(stack, false, false))
    decreases inner, 1
  {
    var s, deeper, closer := Scan(stack, false, false), Scan(stack + [CloserOf(opener)], false, false),
                             CloserOf(opener);
    PiecesStay(stack + [closer], inner);
    RunOne(s, opener);
    RunOne(deeper, closer);
    assert (stack + [closer])[..|stack|] == stack;
    hide Run, PrintAll, Proper;
    RunConcat(deeper, PrintAll(inner), [closer]);
    RunConcat(s, [opener], PrintAll(inner) + [closer]);
    assert [opener] + (PrintAll(inner) + [closer]) == Print(Group(opener, inner));
  }

  lemma {:induction false} PieceStays(stack: seq<char>, p: Piece)
    requires stack != [] && Proper(p)
    ensures Stays(Scan(stack, false, false), Print(p))
    decreases p, 0
  {
    match p
    case Plain(c) => RunOne(Scan(stack, false, false), c);
    case Quoted(body) => QuotedStays(stack, body);
    case Group(opener, inner) => RunGroup(stack, opener, inner);
  }

  lemma {:induction false} PiecesStay(stack: seq<char>, ps: seq<Piece>)
    requires stack != [] && forall p | p in ps :: Proper(p)
    ensures Stays(Scan(stack, false, false), PrintAll(ps))
    decreases ps, 0
  {
    if ps != [] {
      PieceStays(stack, ps[0]);
      PiecesStay(stack, ps[1..]);
      hide Stays, Print, Proper;
      StaysConcat(Scan(stack, false, false), Print(ps[0]), PrintAll(ps[1..]));
    }
  }

  /** Whatever stands before the first opener and after the group, the group is what is found. */
  lemma {:induction false} GroupIsFound(before: string, opener: char, inner: seq<Piece>, after: string)
    requires Proper(Group(opener, inner)) && forall c | c in before :: !IsOpener(c)
    ensures Balanced(before + Print(Group(opener, inner)) + after) == (Print(Group(opener, inner)), true)
  {
    var group := Print(Group(opener, inner));
    var text := before + group + after;
    RunGroup([], opener, inner);
    hide Run, Print, Proper;
    assert group[0] == opener && |group| > 0 by { GroupStarts(opener, inner); }
    RunConcat(START, group, after);
    FirstOpenerIs(text, |before|);
    assert text[|before|..] == group + after && (group + after)[..|group|] == group;
  }

  lemma {:induction false} GroupStarts(opener: char, inner: seq<Piece>)
    ensures |Print(Group(opener, inner))| > 0 && Print(Group(opener, inner))[0] == opener
  {
  }

  // ----- what is accepted is a printed group

  /** The text of nested levels, innermost first: the pieces of a level, its closer, the rest. */
  function Unwind(levels: seq<seq<Piece>>, stack: seq<char>): string
    requires |levels| == |stack|
  {
    if stack == [] then ""
    else PrintAll(levels[|levels| - 1]) + [stack[|stack| - 1]] + Unwind(levels[..|levels| - 1], stack[..|stack| - 1])
  }

  predicate ProperAll(ps: seq<Piece>) { forall p | p in ps :: Proper(p) }

  predicate ProperLevels(levels: seq<seq<Piece>>) { forall ps | ps in levels :: ProperAll(ps) }

  function Push(levels: seq<seq<Piece>>, p: Piece): seq<seq<Piece>>
    requires levels != []
  {
    levels[..|levels| - 1] + [[p] + levels[|levels| - 1]]
  }

  lemma {:induction false} PushUnwinds(levels: seq<seq<Piece>>, stack: seq<char>, p: Piece)
    requires |levels| == |stack| > 0 && ProperLevels(levels) && Proper(p)
    ensures |Push(levels, p)| == |stack| && ProperLevels(Push(levels, p))
    ensures Unwind(Push(levels, p), stack) == Print(p) + Unwind(levels, stack)
  {
    var last, pushed := levels[|levels| - 1], Push(levels, p);
    assert ([p] + last)[1..] == last;
    assert pushed[..|levels| - 1] == levels[..|levels| - 1];
    hide Print, Proper;
    assert PrintAll([p] + last) == Print(p) + PrintAll(last);
    assert ProperAll(last);
    forall ps | ps in pushed ensures ProperAll(ps) {
      assert ps == [p] + last || ps in levels;
    }
  }

  /** One character of a closed run that stays open. */
  lemma {:induction false} RunHead(s: Scan, text: string)
    requires text != [] && Run(s, text).ClosedAt?
    ensures Step(s, text[0]).Open? || Step(s, text[0]) == ClosedAt(1) == Run(s, text)
    ensures Step(s, text[0]).Open? ==>
              && Run(Step(s, text[0]).scan, text[1..]).ClosedAt?
              && Run(s, text).length == Run(Step(s, text[0]).scan, text[1..]).length + 1
  {
    StepCloses(s, text[0]);
    hide Step;
  }

  /** The rest of a string, its quote, and what follows. */
  function Ending(body: seq<Unit>, rest: string): string { PrintUnits(body) + "\"" + rest }

  lemma {:induction false} EndingWith(u: Unit, body: seq<Unit>, rest: string)
    requires ProperUnit(u) && ProperUnits(body)
    ensures ProperUnits([u] + body) && Ending([u] + body, rest) == PrintUnit(u) + Ending(body, rest)
  {
    assert ([u] + body)[1..] == body;
    hide PrintUnit, ProperUnit;
    assert (PrintUnit(u) + PrintUnits(body)) + "\"" + rest == PrintUnit(u) + (PrintUnits(body) + "\"" + rest);
  }

  /** A closed run that starts inside a string first ends the string. */
  lemma {:induction false} ParseString(stack: seq<char>, escaped: bool, text: string)
    returns (body: seq<Unit>, rest: string)
    requires Run(Scan(stack, true, escaped), text).ClosedAt?
    ensures ProperUnits(body)
    ensures !escaped ==> text == Ending(body, rest)
    ensures escaped ==> text != [] && text[1..] == Ending(body, rest)
    ensures |rest| < |text| && Run(Scan(stack, false, false), rest).ClosedAt?
    ensures Run(Scan(stack, true, escaped), text).length
            == Run(Scan(stack, false, false), rest).length + |text| - |rest|
    decreases |text|
  {
    var c := text[0];
    RunHead(Scan(stack, true, escaped), text);
    assert text == [c] + text[1..];
    if c == '"' && !escaped {
      body, rest := [], text[1..];
    } else {
      hide Run, Ending, ProperUnits;
      if escaped {
        body, rest := ParseString(stack, false, text[1..]);
      } else if c == '\\' {
        var tail, after := ParseString(stack, true, text[1..]);
        body, rest := [Escaped(text[1])] + tail, after;
        EndingWith(Escaped(text[1]), tail, after);
        assert text == [c, text[1]] + text[1..][1..];
      } else {
        var tail, after := ParseString(stack, false, text[1..]);
        body, rest := [Raw(c)] + tail, after;
        EndingWith(Raw(c), tail, after);
      }
    }
  }

  lemma {:induction false} ParsePlain(stack: seq<char>, text: string) returns (levels: seq<seq<Piece>>)
    requires stack != [] && text != [] && Run(Scan(stack, false, false), text).ClosedAt?
    requires text[0] != '"' && !IsOpener(text[0]) && !IsCloser(text[0])
    ensures |levels| == |stack| && ProperLevels(levels)
    ensures text[..Run(Scan(stack, false, false), text).length] == Unwind(levels, stack)
    decreases |text|, 0
  {
    hide Run, Unwind, ProperLevels, PrintAll, Push;
    var s, c := Scan(stack, false, false), text[0];
    RunHead(s, text);
    var inner := Parse(stack, text[1..]);
    PushUnwinds(inner, stack, Plain(c));
    levels := Push(inner, Plain(c));
    assert text[..Run(s, text).length] == [c] + text[1..][..Run(s, text[1..]).length];
  }

  lemma {:induction false} ParseQuoted(stack: seq<char>, text: string) returns (levels: seq<seq<Piece>>)
    requires stack != [] && text != [] && Run(Scan(stack, false, false), text).ClosedAt?
    requires text[0] == '"'
    ensures |levels| == |stack| && ProperLevels(levels)
    ensures text[..Run(Scan(stack, false, false), text).length] == Unwind(levels, stack)
    decreases |text|, 0
  {
    hide Run, Unwind, ProperLevels, PrintAll, Push, PrintUnits, ProperUnits;
    var s := Scan(stack, false, false);
    RunHead(s, text);
    var body, rest := ParseString(stack, false, text[1..]);
    var inner := Parse(stack, rest);
    PushUnwinds(inner, stack, Quoted(body));
    levels := Push(inner, Quoted(body));
    var quoted := Print(Quoted(body));
    assert text == quoted + rest by { assert text == [text[0]] + text[1..]; }
    assert text[..Run(s, text).length] == quoted + rest[..Run(s, rest).length];
  }

  lemma {:induction false} ParseOpener(stack: seq<char>, text: string) returns (levels: seq<seq<Piece>>)
    requires stack != [] && text != [] && Run(Scan(stack, false, false), text).ClosedAt?
    requires IsOpener(text[0])
    ensures |levels| == |stack| && ProperLevels(levels)
    ensures text[..Run(Scan(stack, false, false), text).length] == Unwind(levels, stack)
    decreases |text|, 0
  {
    hide Run, Unwind, ProperLevels, PrintAll, Push, Proper;
    var s, c := Scan(stack, false, false), text[0];
    var deeper := Scan(stack + [CloserOf(c)], false, false);
    RunHead(s, text);
    var all := Parse(stack + [CloserOf(c)], text[1..]);
    var inner, outer := all[|stack|], all[..|stack|];
    GroupUnwinds(all, stack, c);
    PushUnwinds(outer, stack, Group(c, inner));
    levels := Push(outer, Group(c, inner));
    var n := Run(deeper, text[1..]).length;
    assert text[..n + 1] == [c] + text[1..][..n];
  }

  lemma {:induction false} GroupUnwinds(all: seq<seq<Piece>>, stack: seq<char>, c: char)
    requires |all| == |stack| + 1 && ProperLevels(all) && IsOpener(c)
    ensures Proper(Group(c, all[|stack|])) && ProperLevels(all[..|stack|])
    ensures [c] + Unwind(all, stack + [CloserOf(c)]) == Print(Group(c, all[|stack|])) + Unwind(all[..|stack|], stack)
  {
    assert (stack + [CloserOf(c)])[..|stack|] == stack;
    assert ProperAll(all[|stack|]);
    hide PrintAll;
  }

  lemma {:induction false} ParseCloser(stack: seq<char>, text: string) returns (levels: seq<seq<Piece>>)
    requires stack != [] && text != [] && Run(Scan(stack, false, false), text).ClosedAt?
    requires IsCloser(text[0])
    ensures |levels| == |stack| && ProperLevels(levels)
    ensures text[..Run(Scan(stack, false, false), text).length] == Unwind(levels, stack)
    decreases |text|, 0
  {
    hide Run, Proper;
    var s, c := Scan(stack, false, false), text[0];
    RunHead(s, text);
    if |stack| == 1 {
      levels := [[]];
      assert text[..1] == [c];
    } else {
      var below := stack[..|stack| - 1];
      var outer := Parse(below, text[1..]);
      levels := outer + [[]];
      assert levels[..|outer|] == outer;
      hide Unwind;
      var n := Run(Scan(below, false, false), text[1..]).length;
      assert text[..n + 1] == [c] + text[1..][..n];
      assert Unwind(levels, stack) == [c] + Unwind(outer, below) by { UnwindEmpty(outer, stack); }
    }
  }

  lemma {:induction false} UnwindEmpty(outer: seq<seq<Piece>>, stack: seq<char>)
    requires |stack| == |outer| + 1
    ensures Unwind(outer + [[]], stack) == [stack[|stack| - 1]] + Unwind(outer, stack[..|stack| - 1])
  {
    assert (outer + [[]])[..|outer|] == outer;
  }

  /** A closed run from inside some groups reads the rest of every one of them. */
  lemma {:induction false} Parse(stack: seq<char>, text: string) returns (levels: seq<seq<Piece>>)
    requires stack != [] && Run(Scan(stack, false, false), text).ClosedAt?
    ensures |levels| == |stack| && ProperLevels(levels)
    ensures text[..Run(Scan(stack, false, false), text).length] == Unwind(levels, stack)
    decreases |text|, 1
  {
    hide *;
    var c := text[0];
    if c == '"' {
      levels := ParseQuoted(stack, text);
    } else if IsOpener(c) {
      levels := ParseOpener(stack, text);
    } else if IsCloser(c) {
      levels := ParseCloser(stack, text);
    } else {
      levels := ParsePlain(stack, text);
    }
  }

  /** What is returned as complete is a printed group, in its place, behind nothing that opens one. */
  lemma {:induction false} CompleteIsGroup(text: string)
    returns (before: string, opener: char, inner: seq<Piece>, after: string)
    requires Balanced(text).1
    ensures Proper(Group(opener, inner)) && forall c | c in before :: !IsOpener(c)
    ensures Balanced(text).0 == Print(Group(opener, inner))
    ensures text == before + Print(Group(opener, inner)) + after
  {
    var start := FirstOpener(text);
    before := text[..start];
    opener, inner, after := ParseGroup(text[start..]);
    hide Run, Print, Proper;
    assert text == before + text[start..];
    assert before + (Print(Group(opener, inner)) + after) == before + Print(Group(opener, inner)) + after;
  }

  lemma {:induction false} ParseGroup(text: string) returns (opener: char, inner: seq<Piece>, after: string)
    requires text != [] && IsOpener(text[0]) && Run(START, text).ClosedAt?
    ensures Proper(Group(opener, inner)) && opener == text[0]
    ensures text[..Run(START, text).length] == Print(Group(opener, inner))
    ensures text == Print(Group(opener, inner)) + after
  {
    hide Run, PrintAll, Proper, Print, Unwind;
    var n := Run(START, text).length;
    opener, after := text[0], text[n..];
    RunHead(START, text);
    assert [] + [CloserOf(opener)] == [CloserOf(opener)];
    var levels := Parse([CloserOf(opener)], text[1..]);
    inner := levels[0];
    GroupUnwinds(levels, [], opener);
    assert Unwind(levels[..0], []) == [] by { UnwindNothing(); }
    assert text[..n] == [opener] + text[1..][..n - 1];
    assert text == text[..n] + text[n..];
  }

  lemma {:induction false} UnwindNothing()
    ensures Unwind([], []) == []
  {
  }

  /** Nothing shorter would have been enough. */
  lemma {:induction false} NoPrefixCloses(s: Scan, text: string, k: nat)
    requires Run(s, text).ClosedAt? && k < Run(s, text).length
    ensures Run(s, text[..k]).Open?
    decreases |text|
  {
    if k > 0 {
      assert text[..k][1..] == text[1..][..k - 1];
      RunHead(s, text);
      hide Step;
      NoPrefixCloses(Step(s, text[0]).scan, text[1..], k - 1);
    }
  }

  /** A complete candidate is balanced as a whole and no proper prefix of it is. */
  lemma {:induction false} CandidateIsMinimal(text: string, k: nat)
    requires Balanced(text).1 && k < |Balanced(text).0|
    ensures Balanced(Balanced(text).0) == Balanced(text)
    ensures !Balanced(Balanced(text).0[..k]).1
  {
    var before, opener, inner, after := CompleteIsGroup(text);
    var group := Print(Group(opener, inner));
    GroupIsFound("", opener, inner, "");
    assert "" + group + "" == group;
    RunGroup([], opener, inner);
    GroupStarts(opener, inner);
    hide Print, Run, Proper;
    NoPrefixCloses(START, group, k);
    if k > 0 {
      FirstOpenerIs(group[..k], 0);
      assert group[..k][0..] == group[..k];
    }
  }
}
