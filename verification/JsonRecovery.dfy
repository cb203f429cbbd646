/** The scanner that cuts the first balanced array or object out of a model answer. */
module JsonRecovery {

  // ----- the scanner

  datatype Scan = Scan(stack: seq<char>, inString: bool, escaped: bool)

  /** Still open, refused, or closed after so many characters. */
  datatype Outcome = Open(scan: Scan) | Mismatch | ClosedAt(length: nat)

  predicate IsOpener(c: char) { c == '[' || c == '{' }

  predicate IsCloser(c: char) { c == ']' || c == '}' }

  function CloserOf(c: char): char { if c == '[' then ']' else '}' }

  function Step(s: Scan, c: char): Outcome {
    if s.inString then
      Open(if s.escaped then s.(escaped := false)
           else if c == '\\' then s.(escaped := true)
           else if c == '"' then s.(inString := false)
           else s)
    else if c == '"' then Open(s.(inString := true))
    else if IsOpener(c) then Open(s.(stack := s.stack + [CloserOf(c)]))
    else if IsCloser(c) then
      if s.stack == [] || s.stack[|s.stack| - 1] != c then Mismatch
      else if |s.stack| == 1 then ClosedAt(1)
      else Open(s.(stack := s.stack[..|s.stack| - 1]))
    else Open(s)
  }

  function Shift(o: Outcome, steps: nat): Outcome {
    if o.ClosedAt? then ClosedAt(o.length + steps) else o
  }

  function Run(s: Scan, text: string): (o: Outcome)
    ensures o.ClosedAt? ==> 0 < o.length <= |text|
    decreases |text|
  {
    if text == [] then Open(s)
    else
      var next := Step(s, text[0]);
      if next.Open? then Shift(Run(next.scan, text[1..]), 1) else next
  }

  const START := Scan([], false, false)

  function FirstOpener(text: string): (i: nat)
    ensures i <= |text| && (i < |text| ==> IsOpener(text[i]))
    ensures forall j | 0 <= j < i :: !IsOpener(text[j])
  {
    if text == [] || IsOpener(text[0]) then 0 else 1 + FirstOpener(text[1..])
  }

  function Balanced(text: string): (string, bool) {
    var start := FirstOpener(text);
    if start == |text| then ("", false)
    else
      match Run(START, text[start..])
      case Open(_) => (text[start..], false)
      case Mismatch => ("", false)
      case ClosedAt(n) => (text[start..][..n], true)
  }

  lemma {:induction false} FirstOpenerIs(text: string, i: nat)
    requires i < |text| && IsOpener(text[i]) && forall j | 0 <= j < i :: !IsOpener(text[j])
    ensures FirstOpener(text) == i
  {
  }

  function Find(text: string, c: char): (i: int)
    ensures -1 <= i < |text|
    ensures i >= 0 ==> text[i] == c && forall j | 0 <= j < i :: text[j] != c
    ensures i == -1 ==> c !in text
  {
    if text == [] then -1
    else if text[0] == c then 0
    else
      var i := Find(text[1..], c);
      if i < 0 then -1 else i + 1
  }

  /** Scanning from `start` comes down to scanning from `index` in state `s`. */
  predicate Reached(text: string, start: nat, index: nat, s: Scan)
    requires start <= index <= |text|
  {
    Run(START, text[start..]) == Shift(Run(s, text[index..]), index - start)
  }

  lemma {:induction false} ReachedNext(text: string, start: nat, index: nat, s: Scan)
    requires start <= index < |text| && Reached(text, start, index, s)
    ensures Step(s, text[index]).Open? ==> Reached(text, start, index + 1, Step(s, text[index]).scan)
    ensures !Step(s, text[index]).Open? ==> Run(START, text[start..]) == Shift(Step(s, text[index]), index - start)
  {
    hide Step;
    assert text[index..][1..] == text[index + 1..];
  }

  lemma {:induction false} ReachedEnd(text: string, start: nat, s: Scan)
    requires start <= |text| && Reached(text, start, |text|, s)
    ensures Run(START, text[start..]) == Open(s)
  {
  }

  lemma {:induction false} BalancedFrom(text: string, start: nat, index: nat)
    requires start <= index < |text| && FirstOpener(text) == start
    ensures var r := Run(START, text[start..]);
            && (r == Mismatch ==> Balanced(text) == ("", false))
            && (r.Open? ==> Balanced(text) == (text[start..], false))
            && (r == ClosedAt(index + 1 - start) ==> Balanced(text) == (text[start..index + 1], true))
  {
    hide Run, FirstOpener;
    assert text[start..][..index + 1 - start] == text[start..index + 1];
  }

  method FindOpener(text: string) returns (start: int)
    ensures if start < 0 then FirstOpener(text) == |text| else start < |text| && FirstOpener(text) == start
  {
    hide FirstOpener, Find;
    var square, brace := Find(text, '['), Find(text, '{');
    if square < 0 && brace < 0 {
      assert FirstOpener(text) == |text|;
      return -1;
    }
    start := if brace < 0 || (0 <= square && square < brace) then square else brace;
    FirstOpenerIs(text, start);
  }

  method BalancedJson(text: string) returns (candidate: string, complete: bool)
    ensures (candidate, complete) == Balanced(text)
  {
    hide Run, FirstOpener, Balanced, Reached;
    var start := FindOpener(text);
    if start < 0 {
      NothingOpens(text);
      return "", false;
    }
    var stack: seq<char> := [];
    var inString, escaped := false, false;
    var index := start;
    ReachedStart(text, start);
    while index < |text|
      invariant start <= index <= |text|
      invariant Reached(text, start, index, Scan(stack, inString, escaped))
    {
      var c := text[index];
      ReachedNext(text, start, index, Scan(stack, inString, escaped));
      if inString {
        if escaped {
          escaped := false;
        } else if c == '\\' {
          escaped := true;
        } else if c == '"' {
          inString := false;
        }
      } else if c == '"' {
        inString := true;
      } else if IsOpener(c) {
        stack := stack + [CloserOf(c)];
      } else if IsCloser(c) {
        if stack == [] || stack[|stack| - 1] != c {
          BalancedFrom(text, start, index);
          return "", false;
        }
        stack := stack[..|stack| - 1];
        if stack == [] {
          BalancedFrom(text, start, index);
          return text[start..index + 1], true;
        }
      }
      index := index + 1;
    }
    ReachedEnd(text, start, Scan(stack, inString, escaped));
    BalancedFrom(text, start, start);
    return text[start..], false;
  }

  lemma {:induction false} ReachedStart(text: string, start: nat)
    requires start <= |text|
    ensures Reached(text, start, start, START)
  {
    hide Run;
  }

  lemma {:induction false} NothingOpens(text: string)
    requires FirstOpener(text) == |text|
    ensures Balanced(text) == ("", false)
  {
  }
}
