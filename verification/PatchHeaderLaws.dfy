/** Which lines are hunk headers and what they declare, stated by their spelling alone. */
module PatchHeaderLaws {
  import opened Results
  import opened PatchText
  import opened PatchHeader

  // ----- the language of a pattern

  /** Some reading of the pattern spells the text with these numbers. */
  ghost predicate Spells(p: Pattern, s: string, numbers: seq<nat>) {
    match p
    case AnyTail => numbers == [] && '\n' !in s
    case Lit(c, next) => s != "" && s[0] == c && Spells(next, s[1..], numbers)
    case Number(next) => numbers != [] && exists k: nat :: SpellsNumber(next, s, k, numbers)
    case Count(next) =>
      numbers != []
      && ((numbers[0] == 1 && Spells(next, s, numbers[1..]))
          || (s != "" && s[0] == ',' && exists k: nat :: SpellsNumber(next, s[1..], k, numbers)))
  }

  /** The first `k` characters are the first number, and the rest spells the rest. */
  ghost predicate SpellsNumber(next: Pattern, s: string, k: nat, numbers: seq<nat>)
    requires numbers != []
  {
    0 < k <= |s| && AllDigits(s[..k]) && Value(s[..k]) == numbers[0] && Spells(next, s[k..], numbers[1..])
  }

  /** What follows a number begins with neither a digit nor, behind an optional count, a comma. */
  predicate Apart(p: Pattern) {
    match p
    case AnyTail => true
    case Lit(_, next) => Apart(next)
    case Number(next) => Apart(next) && ((next.Lit? && !IsDigit(next.c)) || (next.Count? && AfterCount(next.next)))
    case Count(next) => Apart(next) && AfterCount(next)
  }

  predicate AfterCount(p: Pattern) { p.Lit? && !IsDigit(p.c) && p.c != ',' }

  /** A text spelled by what follows a number does not go on with a digit. */
  lemma {:induction false} NoDigitFollows(next: Pattern, s: string, numbers: seq<nat>)
    requires (next.Lit? && !IsDigit(next.c)) || (next.Count? && AfterCount(next.next))
    requires Spells(next, s, numbers)
    ensures s != "" && !IsDigit(s[0])
  {
  }

  lemma {:induction false} RunIsAll(s: string, k: nat)
    requires k <= |s| && AllDigits(s[..k]) && (k < |s| ==> !IsDigit(s[k]))
    ensures DigitRun(s) == k
  {
    DigitRunOf(s[..k], s[k..]);
    assert s[..k] + s[k..] == s;
  }

  /** The numbers a text spells are unique, and matching from the left finds them. */
  lemma {:induction false} MatchFindsSpelling(p: Pattern, s: string, numbers: seq<nat>)
    requires Apart(p) && Spells(p, s, numbers)
    ensures Match(p, s) == Some(numbers)
    decreases p, 0
  {
    hide Value, DigitRun, AllDigits;
    match p
    case AnyTail =>
    case Lit(c, next) => MatchFindsSpelling(next, s[1..], numbers);
    case Number(next) =>
      var k: nat :| SpellsNumber(next, s, k, numbers);
      MatchFindsNumber(next, s, k, numbers);
      assert [numbers[0]] + numbers[1..] == numbers;
    case Count(next) =>
      assert [numbers[0]] + numbers[1..] == numbers;
      if s != "" && s[0] == ',' && exists k: nat :: SpellsNumber(next, s[1..], k, numbers) {
        var k: nat :| SpellsNumber(next, s[1..], k, numbers);
        MatchFindsNumber(next, s[1..], k, numbers);
      } else {
        MatchFindsSpelling(next, s, numbers[1..]);
      }
  }

  lemma {:induction false} MatchFindsNumber(next: Pattern, s: string, k: nat, numbers: seq<nat>)
    requires Apart(next) && ((next.Lit? && !IsDigit(next.c)) || (next.Count? && AfterCount(next.next)))
    requires numbers != [] && SpellsNumber(next, s, k, numbers)
    ensures DigitRun(s) == k && Value(s[..k]) == numbers[0] && Match(next, s[k..]) == Some(numbers[1..])
    decreases next, 1
  {
    MatchFindsSpelling(next, s[k..], numbers[1..]);
    NoDigitFollows(next, s[k..], numbers[1..]);
    hide Value, DigitRun, AllDigits, Spells;
    RunIsAll(s, k);
  }

  /** Whatever matching finds is a spelling. */
  lemma {:induction false} MatchIsSpelling(p: Pattern, s: string)
    requires Match(p, s).Some?
    ensures Spells(p, s, Match(p, s).value)
    decreases p
  {
    hide Value, AllDigits;
    match p
    case AnyTail =>
    case Lit(c, next) => MatchIsSpelling(next, s[1..]);
    case Number(next) =>
      var k := DigitRun(s);
      MatchIsSpelling(next, s[k..]);
      var numbers := Match(p, s).value;
      assert numbers[1..] == Match(next, s[k..]).value;
      assert SpellsNumber(next, s, k, numbers);
    case Count(next) =>
      var numbers := Match(p, s).value;
      if s != "" && s[0] == ',' && DigitRun(s[1..]) > 0 {
        var k := DigitRun(s[1..]);
        MatchIsSpelling(next, s[1..][k..]);
        assert numbers[1..] == Match(next, s[1..][k..]).value;
        assert SpellsNumber(next, s[1..], k, numbers);
      } else {
        MatchIsSpelling(next, s);
        assert numbers[1..] == Match(next, s).value;
      }
  }

  // ----- headers

  /** One side of a header: the first line, and the count, which may be left out for 1. */
  ghost predicate Range(text: string, first: nat, count: nat) {
    exists a: string, n: string :: RangeAs(text, first, count, a, n)
  }

  predicate RangeAs(text: string, first: nat, count: nat, a: string, n: string) {
    IsNumeral(a, first) && ((text == a && count == 1) || (text == a + "," + n && IsNumeral(n, count)))
  }

  predicate IsNumeral(digits: string, n: nat) { digits != "" && AllDigits(digits) && Value(digits) == n }

  /** `@@ -range +range @@` with any text behind it on the same line. */
  ghost predicate IsHeader(header: string, f: Fields) {
    exists before: string, after: string, tail: string :: Composed(header, f, before, after, tail)
  }

  ghost predicate Composed(header: string, f: Fields, before: string, after: string, tail: string) {
    && header == "@@ -" + before + " +" + after + " @@" + tail
    && Range(before, f.a, f.n) && Range(after, f.b, f.m) && '\n' !in tail
  }

  /** A pattern of a number, an optional count and what follows them. */
  function RangeThen(next: Pattern): Pattern { Number(Count(next)) }

  lemma {:induction false} NumberSpells(next: Pattern, digits: string, rest: string, n: nat, more: seq<nat>)
    requires IsNumeral(digits, n) && Spells(next, rest, more)
    ensures Spells(Number(next), digits + rest, [n] + more)
  {
    hide Value, AllDigits;
    var s, numbers := digits + rest, [n] + more;
    assert s[..|digits|] == digits && s[|digits|..] == rest && numbers[1..] == more;
    assert SpellsNumber(next, s, |digits|, numbers);
  }

  lemma {:induction false} NoCountSpells(next: Pattern, rest: string, more: seq<nat>)
    requires Spells(next, rest, more)
    ensures Spells(Count(next), rest, [1] + more)
  {
    assert ([1] + more)[1..] == more;
  }

  lemma {:induction false} CountSpells(next: Pattern, digits: string, rest: string, n: nat, more: seq<nat>)
    requires IsNumeral(digits, n) && Spells(next, rest, more)
    ensures Spells(Count(next), "," + (digits + rest), [n] + more)
  {
    hide Value, AllDigits;
    var s, numbers := "," + (digits + rest), [n] + more;
    assert s[1..] == digits + rest && numbers[1..] == more;
    assert s[1..][..|digits|] == digits && s[1..][|digits|..] == rest;
    assert SpellsNumber(next, s[1..], |digits|, numbers);
  }

  lemma {:induction false} RangeSpells(next: Pattern, text: string, rest: string, first: nat, count: nat,
                                       more: seq<nat>)
    requires Range(text, first, count) && Spells(next, rest, more)
    ensures Spells(RangeThen(next), text + rest, [first, count] + more)
  {
    hide Spells, IsNumeral;
    var a: string, n: string :| RangeAs(text, first, count, a, n);
    assert [first] + ([count] + more) == [first, count] + more;
    if text == a && count == 1 {
      NoCountSpells(next, rest, more);
      NumberSpells(Count(next), a, rest, first, [count] + more);
    } else {
      CountSpells(next, n, rest, count, more);
      NumberSpells(Count(next), a, "," + (n + rest), first, [count] + more);
      assert text + rest == a + ("," + (n + rest));
    }
  }

  lemma {:induction false} SpelledNumber(next: Pattern, s: string, numbers: seq<nat>)
    returns (digits: string, rest: string)
    requires Spells(Number(next), s, numbers)
    ensures numbers != [] && s == digits + rest && IsNumeral(digits, numbers[0]) && Spells(next, rest, numbers[1..])
  {
    hide Value, AllDigits;
    var k: nat :| SpellsNumber(next, s, k, numbers);
    digits, rest := s[..k], s[k..];
  }

  /** The count is left out, or written behind a comma. */
  lemma {:induction false} SpelledCount(next: Pattern, s: string, numbers: seq<nat>)
    returns (digits: string, rest: string)
    requires Spells(Count(next), s, numbers)
    ensures numbers != [] && Spells(next, rest, numbers[1..])
    ensures (s == rest && numbers[0] == 1) || (s == "," + digits + rest && IsNumeral(digits, numbers[0]))
  {
    hide Value, AllDigits;
    if numbers[0] == 1 && Spells(next, s, numbers[1..]) {
      digits, rest := "", s;
    } else {
      var k: nat :| SpellsNumber(next, s[1..], k, numbers);
      digits, rest := s[1..][..k], s[1..][k..];
      assert s == [s[0]] + s[1..] && s[1..] == digits + rest;
    }
  }

  lemma {:induction false} SpelledRange(next: Pattern, s: string, numbers: seq<nat>)
    returns (text: string, rest: string)
    requires Spells(RangeThen(next), s, numbers)
    ensures |numbers| >= 2 && s == text + rest
    ensures Range(text, numbers[0], numbers[1]) && Spells(next, rest, numbers[2..])
  {
    hide Spells, IsNumeral, Range;
    var a, behind := SpelledNumber(Count(next), s, numbers);
    var n, more := SpelledCount(next, behind, numbers[1..]);
    assert numbers[1..][0] == numbers[1] && numbers[1..][1..] == numbers[2..];
    rest := more;
    if behind == more && numbers[1] == 1 {
      text := a;
      IsRange(text, numbers[0], numbers[1], a, n);
    } else {
      text := a + "," + n;
      IsRange(text, numbers[0], numbers[1], a, n);
    }
  }

  lemma {:induction false} LitSpells(c: char, next: Pattern, rest: string, numbers: seq<nat>)
    ensures Spells(Lit(c, next), [c] + rest, numbers) <==> Spells(next, rest, numbers)
  {
    assert ([c] + rest)[1..] == rest;
  }

  lemma {:induction false} SpelledLit(c: char, next: Pattern, s: string, numbers: seq<nat>)
    requires Spells(Lit(c, next), s, numbers)
    ensures s != "" && s == [c] + s[1..] && Spells(next, s[1..], numbers)
  {
  }

  function Close(): Pattern { Lit(' ', Lit('@', Lit('@', AnyTail))) }

  function After(): Pattern { Lit(' ', Lit('+', RangeThen(Close()))) }

  lemma {:induction false} HeaderIs()
    ensures HEADER == Lit('@', Lit('@', Lit(' ', Lit('-', RangeThen(After())))))
    ensures Apart(HEADER) && AfterCount(Close()) && AfterCount(After())
  {
  }

  lemma {:induction false} CloseSpells(tail: string)
    ensures Spells(Close(), " @@" + tail, []) <==> '\n' !in tail
  {
    LitSpells('@', AnyTail, tail, []);
    LitSpells('@', Lit('@', AnyTail), ['@'] + tail, []);
    LitSpells(' ', Lit('@', Lit('@', AnyTail)), ['@'] + (['@'] + tail), []);
    assert " @@" + tail == [' '] + (['@'] + (['@'] + tail));
  }

  lemma {:induction false} SpelledClose(s: string, numbers: seq<nat>) returns (tail: string)
    requires Spells(Close(), s, numbers)
    ensures numbers == [] && s == " @@" + tail && '\n' !in tail
  {
    SpelledLit(' ', Lit('@', Lit('@', AnyTail)), s, numbers);
    SpelledLit('@', Lit('@', AnyTail), s[1..], numbers);
    SpelledLit('@', AnyTail, s[1..][1..], numbers);
    tail := s[1..][1..][1..];
    assert s == [' '] + (['@'] + (['@'] + tail));
  }

  lemma {:induction false} ComposedSpells(header: string, f: Fields, before: string, after: string, tail: string)
    requires Composed(header, f, before, after, tail)
    ensures Spells(HEADER, header, [f.a, f.n, f.b, f.m])
  {
    hide Spells, Range;
    HeaderIs();
    var close, second := " @@" + tail, after + (" @@" + tail);
    CloseSpells(tail);
    RangeSpells(Close(), after, close, f.b, f.m, []);
    assert [f.b, f.m] + [] == [f.b, f.m];
    LitSpells('+', RangeThen(Close()), second, [f.b, f.m]);
    LitSpells(' ', Lit('+', RangeThen(Close())), ['+'] + second, [f.b, f.m]);
    var behind := [' '] + (['+'] + second);
    RangeSpells(After(), before, behind, f.a, f.n, [f.b, f.m]);
    assert [f.a, f.n] + [f.b, f.m] == [f.a, f.n, f.b, f.m];
    OpeningSpells(before + behind, [f.a, f.n, f.b, f.m]);
    assert header == "@@ -" + (before + behind);
  }

  lemma {:induction false} OpeningSpells(s: string, numbers: seq<nat>)
    ensures Spells(HEADER, "@@ -" + s, numbers) <==> Spells(RangeThen(After()), s, numbers)
  {
    hide Spells;
    HeaderIs();
    var p := RangeThen(After());
    LitSpells('-', p, s, numbers);
    LitSpells(' ', Lit('-', p), ['-'] + s, numbers);
    LitSpells('@', Lit(' ', Lit('-', p)), [' '] + (['-'] + s), numbers);
    LitSpells('@', Lit('@', Lit(' ', Lit('-', p))), ['@'] + ([' '] + (['-'] + s)), numbers);
    assert "@@ -" + s == ['@'] + (['@'] + ([' '] + (['-'] + s)));
  }

  lemma {:induction false} SpelledOpening(header: string, numbers: seq<nat>) returns (s: string)
    requires Spells(HEADER, header, numbers)
    ensures header == "@@ -" + s && Spells(RangeThen(After()), s, numbers)
  {
    hide Spells;
    HeaderIs();
    var p := RangeThen(After());
    SpelledLit('@', Lit('@', Lit(' ', Lit('-', p))), header, numbers);
    SpelledLit('@', Lit(' ', Lit('-', p)), header[1..], numbers);
    SpelledLit(' ', Lit('-', p), header[1..][1..], numbers);
    SpelledLit('-', p, header[1..][1..][1..], numbers);
    s := header[1..][1..][1..][1..];
    assert header == ['@'] + (['@'] + ([' '] + (['-'] + s)));
  }

  lemma {:induction false} SpelledIsComposed(header: string, numbers: seq<nat>)
    requires Spells(HEADER, header, numbers)
    ensures |numbers| == 4 && IsHeader(header, Fields(numbers[0], numbers[1], numbers[2], numbers[3]))
  {
    hide Spells, Range;
    HeaderIs();
    var s := SpelledOpening(header, numbers);
    var before, behind := SpelledRange(After(), s, numbers);
    SpelledLit(' ', Lit('+', RangeThen(Close())), behind, numbers[2..]);
    SpelledLit('+', RangeThen(Close()), behind[1..], numbers[2..]);
    var second := behind[1..][1..];
    var after, close := SpelledRange(Close(), second, numbers[2..]);
    var tail := SpelledClose(close, numbers[2..][2..]);
    assert numbers[2..][0] == numbers[2] && numbers[2..][1] == numbers[3];
    assert header == "@@ -" + before + " +" + after + " @@" + tail;
    assert Composed(header, Fields(numbers[0], numbers[1], numbers[2], numbers[3]), before, after, tail);
  }

  /** A line is read as a header with some numbers if and only if it is spelled as one with these numbers. */
  lemma {:induction false} HeadersAreSpelled(header: string, f: Fields)
    ensures ReadHeader(header) == Some(f) <==> IsHeader(header, f)
  {
    hide Match, Spells, Range;
    if IsHeader(header, f) {
      var before, after, tail :| Composed(header, f, before, after, tail);
      ComposedSpells(header, f, before, after, tail);
      HeaderIs();
      MatchFindsSpelling(HEADER, header, [f.a, f.n, f.b, f.m]);
    }
    if Match(HEADER, header).Some? {
      MatchIsSpelling(HEADER, header);
      SpelledIsComposed(header, Match(HEADER, header).value);
    }
  }

  // ----- omitted counts

  /** A count as it is written, or left out. */
  function Counted(n: Option<nat>): string { if n.None? then "" else "," + Decimal(n.value) }

  function CountOf(n: Option<nat>): nat { if n.None? then 1 else n.value }

  lemma {:induction false} WrittenRange(first: nat, n: Option<nat>)
    ensures Range(Decimal(first) + Counted(n), first, CountOf(n))
  {
    ValueOfDecimal(first);
    hide Decimal, Value;
    assert IsNumeral(Decimal(first), first);
    if n.None? {
      assert Decimal(first) + "" == Decimal(first);
      assert Decimal(first) + Counted(n) == Decimal(first) && CountOf(n) == 1;
      IsRange(Decimal(first) + Counted(n), first, CountOf(n), Decimal(first), "");
    } else {
      ValueOfDecimal(n.value);
      assert Decimal(first) + Counted(n) == Decimal(first) + "," + Decimal(n.value);
      IsRange(Decimal(first) + Counted(n), first, CountOf(n), Decimal(first), Decimal(n.value));
    }
  }

  lemma {:induction false} IsRange(text: string, first: nat, count: nat, a: string, n: string)
    requires IsNumeral(a, first)
    requires (text == a && count == 1) || (text == a + "," + n && IsNumeral(n, count))
    ensures Range(text, first, count)
  {
    hide IsNumeral;
    assert RangeAs(text, first, count, a, n);
  }

  /** All four forms of a header, with either count left out or written: an omitted one stands for one line,
      and the text behind the closing marks changes nothing. */
  lemma {:induction false} OmittedCountsAreOne(a: nat, n: Option<nat>, b: nat, m: Option<nat>, tail: string)
    requires '\n' !in tail
    ensures var header := "@@ -" + (Decimal(a) + Counted(n)) + " +" + (Decimal(b) + Counted(m)) + " @@" + tail;
            && ReadHeader(header) == Some(Fields(a, CountOf(n), b, CountOf(m)))
            && Coordinates(header)
               == if (CountOf(n) > 0 && a == 0) || (CountOf(m) > 0 && b == 0) then Err(InvalidPatch)
                  else Ok(Coords(if CountOf(n) > 0 then a - 1 else a, CountOf(n),
                                 if CountOf(m) > 0 then b - 1 else b, CountOf(m)))
  {
    hide ReadHeader, Decimal, Range, Counted, CountOf;
    var before, after := Decimal(a) + Counted(n), Decimal(b) + Counted(m);
    var header, f := "@@ -" + before + " +" + after + " @@" + tail, Fields(a, CountOf(n), b, CountOf(m));
    WrittenRange(a, n);
    WrittenRange(b, m);
    assert Composed(header, f, before, after, tail);
    HeadersAreSpelled(header, f);
  }

  /** A line is no header if and only if no numbers spell it; then its hunk is refused. */
  lemma {:induction false} OtherLinesAreRefused(header: string)
    ensures ReadHeader(header) == None <==> forall f :: !IsHeader(header, f)
    ensures ReadHeader(header) == None ==> Coordinates(header) == Err(InvalidPatch)
  {
    hide ReadHeader, IsHeader;
    if ReadHeader(header).Some? {
      HeadersAreSpelled(header, ReadHeader(header).value);
      assert IsHeader(header, ReadHeader(header).value);
    } else {
      forall f ensures !IsHeader(header, f) { HeadersAreSpelled(header, f); }
    }
  }
}
