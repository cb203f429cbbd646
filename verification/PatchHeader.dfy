/** Hunk headers `@@ -a,n +b,m @@` of the unified diff format ("Diff -u or -U Output Format"
    of the `diff` utility in POSIX.1-2008): reading, writing and the coordinate convention. */
module PatchHeader {
  import opened Results
  import opened PatchText

  /** The numbers a header declares; an omitted count stands for 1. */
  datatype Fields = Fields(a: nat, n: nat, b: nat, m: nat)

  /** Zero-based coordinates: `oldCount` lines from `start` become `newCount` lines at `newStart`. */
  datatype Coords = Coords(start: nat, oldCount: nat, newStart: nat, newCount: nat)

  // ----- decimal numbers

  predicate IsDigit(c: char) { '0' <= c <= '9' }

  predicate AllDigits(s: string) { forall i | 0 <= i < |s| :: IsDigit(s[i]) }

  function Digit(d: nat): (c: char)
    requires d < 10
    ensures IsDigit(c)
  {
    ('0' as int + d) as char
  }

  /** str(n) */
  function Decimal(n: nat): (s: string)
    ensures s != "" && AllDigits(s)
  {
    if n < 10 then [Digit(n)] else Decimal(n / 10) + [Digit(n % 10)]
  }

  /** int(s) for a run of digits */
  function Value(s: string): nat
    requires AllDigits(s)
  {
    if s == "" then 0 else 10 * Value(s[..|s| - 1]) + (s[|s| - 1] as int - '0' as int)
  }

  lemma {:induction false} ValueOfDecimal(n: nat)
    ensures Value(Decimal(n)) == n
  {
    if n < 10 {
      assert Decimal(n)[..0] == "";
    } else {
      ValueOfDecimal(n / 10);
      assert Decimal(n)[..|Decimal(n)| - 1] == Decimal(n / 10);
    }
  }

  /** The length of the leading run of digits. */
  function DigitRun(s: string): (k: nat)
    ensures k <= |s| && AllDigits(s[..k]) && (k < |s| ==> !IsDigit(s[k]))
  {
    if s == "" || !IsDigit(s[0]) then 0 else 1 + DigitRun(s[1..])
  }

  // ----- the header pattern

  /** Patterns of literal characters and numbers, matched from the left as a regular
      expression would match them. */
  datatype Pattern =
    | AnyTail                       // .*
    | Lit(c: char, next: Pattern)
    | Number(next: Pattern)         // (\d+)
    | Count(next: Pattern)          // (?:,(\d+))?, read as 1 when absent

  /** @@ -(\d+)(?:,(\d+))? \+(\d+)(?:,(\d+))? @@(?:.*) */
  const HEADER := Lit('@', Lit('@', Lit(' ', Lit('-', Number(Count(Lit(' ', Lit('+', Number(Count(
                    Lit(' ', Lit('@', Lit('@', AnyTail)))))))))))))

  function Match(p: Pattern, s: string): Option<seq<nat>> {
    match p
    case AnyTail => if '\n' in s then None else Some([])
    case Lit(c, next) => if s != "" && s[0] == c then Match(next, s[1..]) else None
    case Number(next) =>
      var k := DigitRun(s);
      if k == 0 then None else Push(Value(s[..k]), Match(next, s[k..]))
    case Count(next) =>
      if s != "" && s[0] == ',' && DigitRun(s[1..]) > 0 then
        var k := DigitRun(s[1..]);
        Push(Value(s[1..][..k]), Match(next, s[1..][k..]))
      else Push(1, Match(next, s))
  }

  function Push(n: nat, r: Option<seq<nat>>): Option<seq<nat>> {
    if r.None? then None else Some([n] + r.value)
  }

  /** The text a pattern stands for, given its numbers, with every count written out. */
  function Write(p: Pattern, numbers: seq<nat>): string {
    match p
    case AnyTail => ""
    case Lit(c, next) => [c] + Write(next, numbers)
    case Number(next) => if numbers == [] then "" else Decimal(numbers[0]) + Write(next, numbers[1..])
    case Count(next) => if numbers == [] then "" else "," + Decimal(numbers[0]) + Write(next, numbers[1..])
  }

  function Arity(p: Pattern): nat {
    match p
    case AnyTail => 0
    case Lit(_, next) => Arity(next)
    case Number(next) => 1 + Arity(next)
    case Count(next) => 1 + Arity(next)
  }

  /** A pattern whose numbers end where the text says they do. */
  predicate Delimited(p: Pattern) {
    match p
    case AnyTail => true
    case Lit(c, next) => c != '\n' && c != '\r' && c != '\0' && Delimited(next)
    case Number(next) => Delimited(next) && (next.Count? || (next.Lit? && !IsDigit(next.c)) || next.AnyTail?)
    case Count(next) => Delimited(next) && ((next.Lit? && !IsDigit(next.c)) || next.AnyTail?)
  }

  function ReadHeader(header: string): Option<Fields> {
    match Match(HEADER, header)
    case None => None
    case Some(v) => if |v| == 4 then Some(Fields(v[0], v[1], v[2], v[3])) else None
  }

  function WriteHeader(f: Fields): string {
    Write(HEADER, [f.a, f.n, f.b, f.m])
  }

  // ----- coordinates

  function Coordinates(header: string): Result<Coords, PatchError> {
    match ReadHeader(header)
    case None => Err(InvalidPatch)
    case Some(f) =>
      if (f.n > 0 && f.a == 0) || (f.m > 0 && f.b == 0) then Err(InvalidPatch)
      else Ok(Coords(f.a - (if f.n > 0 then 1 else 0), f.n, f.b - (if f.m > 0 then 1 else 0), f.m))
  }

  /** The fields that stand for given coordinates. */
  function FieldsOf(c: Coords): Fields {
    Fields(c.start + (if c.oldCount > 0 then 1 else 0), c.oldCount,
           c.newStart + (if c.newCount > 0 then 1 else 0), c.newCount)
  }

  function HeaderOf(c: Coords): string {
    WriteHeader(FieldsOf(c))
  }

  // ----- writing and reading

  lemma {:induction false} DigitRunOf(digits: string, tail: string)
    requires AllDigits(digits) && (tail != "" ==> !IsDigit(tail[0]))
    ensures DigitRun(digits + tail) == |digits|
  {
    if digits == "" {
      assert digits + tail == tail;
    } else {
      DigitRunOf(digits[1..], tail);
      assert (digits + tail)[1..] == digits[1..] + tail;
    }
  }

  lemma {:induction false} NumberReadsBack(n: nat, tail: string)
    requires tail != "" ==> !IsDigit(tail[0])
    ensures var s := Decimal(n) + tail; var k := DigitRun(s);
            k > 0 && Value(s[..k]) == n && s[k..] == tail
  {
    var s := Decimal(n) + tail;
    DigitRunOf(Decimal(n), tail);
    ValueOfDecimal(n);
    assert s[..|Decimal(n)|] == Decimal(n) && s[|Decimal(n)|..] == tail;
  }

  lemma {:induction false} MatchNumber(next: Pattern, n: nat, tail: string)
    requires tail != "" ==> !IsDigit(tail[0])
    ensures Match(Number(next), Decimal(n) + tail) == Push(n, Match(next, tail))
  {
    NumberReadsBack(n, tail);
  }

  lemma {:induction false} MatchCount(next: Pattern, n: nat, tail: string)
    requires tail != "" ==> !IsDigit(tail[0])
    ensures Match(Count(next), "," + Decimal(n) + tail) == Push(n, Match(next, tail))
  {
    NumberReadsBack(n, tail);
    var digits := Decimal(n) + tail;
    assert "," + Decimal(n) + tail == "," + digits && ("," + digits)[1..] == digits;
  }

  lemma {:induction false} NoBreaksInNumber(n: nat)
    ensures NoBreaks(Decimal(n))
  {
    assert forall x | x in Decimal(n) :: IsDigit(x);
  }

  lemma {:induction false} MatchWritten(p: Pattern, numbers: seq<nat>)
    requires Delimited(p) && |numbers| == Arity(p)
    ensures Match(p, Write(p, numbers)) == Some(numbers)
    ensures NoBreaks(Write(p, numbers))
  {
    hide Decimal, DigitRun, Value, AllDigits;
    match p
    case AnyTail =>
      assert numbers == [];
    case Lit(c, next) =>
      MatchWritten(next, numbers);
      var tail := Write(next, numbers);
      assert ([c] + tail)[1..] == tail;
    case Number(next) =>
      MatchWritten(next, numbers[1..]);
      MatchNumber(next, numbers[0], Write(next, numbers[1..]));
      NoBreaksInNumber(numbers[0]);
      assert [numbers[0]] + numbers[1..] == numbers;
    case Count(next) =>
      MatchWritten(next, numbers[1..]);
      MatchCount(next, numbers[0], Write(next, numbers[1..]));
      NoBreaksInNumber(numbers[0]);
      assert [numbers[0]] + numbers[1..] == numbers;
  }

  /** Every pair of coordinates is expressible: its header is one clean line, starts a hunk,
      and is read back as the same coordinates. */
  lemma {:induction false} CoordinatesReadBack(c: Coords)
    ensures Coordinates(HeaderOf(c)) == Ok(c)
    ensures StartsHunk(HeaderOf(c)) && NoBreaks(HeaderOf(c))
  {
    var f := FieldsOf(c);
    MatchWritten(HEADER, [f.a, f.n, f.b, f.m]);
  }
}
