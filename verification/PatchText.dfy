/** Text, newline styles and line splitting of the patch engine.

    A text the engine accepts is exactly a list of lines plus one newline style:
    `KeepEnds`/`Render` are inverse to each other (see `RenderReadsBack` and
    `ReadableIsRendered`). */
module PatchText {
  import opened Results

  /** The two error codes a patch can be refused with. */
  datatype PatchError = InvalidPatch | StalePreimage

  const LF := "\n"
  const CRLF := "\r\n"

  // ----- the Python string operations the engine uses

  /** text.replace("\r\n", "\n") */
  function CollapseCrlf(text: string): string {
    if text == "" then ""
    else if |text| >= 2 && text[0] == '\r' && text[1] == '\n' then "\n" + CollapseCrlf(text[2..])
    else [text[0]] + CollapseCrlf(text[1..])
  }

  /** text.replace("\r\n", "") */
  function DropCrlf(text: string): string {
    if text == "" then ""
    else if |text| >= 2 && text[0] == '\r' && text[1] == '\n' then DropCrlf(text[2..])
    else [text[0]] + DropCrlf(text[1..])
  }

  /** "\r\n" in text */
  predicate HasCrlf(text: string) {
    |text| >= 2 && ((text[0] == '\r' && text[1] == '\n') || HasCrlf(text[1..]))
  }

  /** text.replace("\n", newline) */
  function Expand(text: string, newline: string): string {
    if text == "" then ""
    else (if text[0] == '\n' then newline else [text[0]]) + Expand(text[1..], newline)
  }

  /** text.split("\n") */
  function Split(text: string): (parts: seq<string>)
    ensures |parts| >= 1
  {
    if text == "" then [""]
    else
      var rest := Split(text[1..]);
      if text[0] == '\n' then [""] + rest else [[text[0]] + rest[0]] + rest[1..]
  }

  /** "\n".join(parts) */
  function Join(parts: seq<string>): string {
    if |parts| == 0 then ""
    else if |parts| == 1 then parts[0]
    else parts[0] + "\n" + Join(parts[1..])
  }

  /** "".join(parts) */
  function Concat(parts: seq<string>): string {
    if parts == [] then "" else parts[0] + Concat(parts[1..])
  }

  /** text.startswith("@@") */
  predicate StartsHunk(text: string) {
    |text| >= 2 && text[0] == '@' && text[1] == '@'
  }

  predicate EndsWithNewline(text: string) {
    text != "" && text[|text| - 1] == '\n'
  }

  // ----- _lines

  /** The texts `_lines` does not refuse: no NUL, no lone carriage return, one newline style. */
  predicate Readable(text: string) {
    && '\0' !in text
    && '\r' !in CollapseCrlf(text)
    && !(HasCrlf(text) && '\n' in DropCrlf(text))
  }

  function Terminate(parts: seq<string>): seq<string>
    requires |parts| >= 1
  {
    if |parts| == 1 then (if parts[0] == "" then [] else parts)
    else [parts[0] + "\n"] + Terminate(parts[1..])
  }

  function KeepEnds(normalized: string): seq<string> {
    Terminate(Split(normalized))
  }

  function BareLines(normalized: string): seq<string> {
    var parts := Split(normalized);
    if EndsWithNewline(normalized) then parts[..|parts| - 1]
    else if normalized != "" then parts
    else []
  }

  function Lines(text: string): Result<seq<string>, PatchError> {
    if Readable(text) then Ok(BareLines(CollapseCrlf(text))) else Err(InvalidPatch)
  }

  function LinesKeepEnds(text: string): Result<seq<string>, PatchError> {
    if Readable(text) then Ok(KeepEnds(CollapseCrlf(text))) else Err(InvalidPatch)
  }

  // ----- what a list of lines is

  predicate NoBreaks(line: string) {
    '\n' !in line && '\r' !in line && '\0' !in line
  }

  predicate WholeLine(line: string) {
    line != "" && line[|line| - 1] == '\n' && NoBreaks(line[..|line| - 1])
  }

  /** Every line ends in a newline, except that the last may be a nonempty unterminated one. */
  predicate LineSeq(lines: seq<string>) {
    forall i | 0 <= i < |lines| ::
      WholeLine(lines[i]) || (i == |lines| - 1 && lines[i] != "" && NoBreaks(lines[i]))
  }

  predicate Clean(text: string) {
    '\r' !in text && '\0' !in text
  }

  /** The text a list of lines stands for in a newline style. */
  function Render(lines: seq<string>, newline: string): string {
    Expand(Concat(lines), newline)
  }

  function Style(text: string): string {
    if HasCrlf(text) then CRLF else LF
  }

  // ----- newline styles

  lemma {:induction false} ExpandFacts(text: string, newline: string)
    requires Clean(text) && (newline == LF || newline == CRLF)
    ensures CollapseCrlf(Expand(text, newline)) == text
    ensures '\0' !in Expand(text, newline)
    ensures HasCrlf(Expand(text, newline)) <==> newline == CRLF && '\n' in text
    ensures newline == CRLF ==> '\n' !in DropCrlf(Expand(text, newline))
    ensures newline == LF ==> Expand(text, newline) == text
    ensures ('\n' in Expand(text, newline)) <==> '\n' in text
  {
    if newline == LF {
      LfIsIdentity(text);
      CleanIsCollapsed(text);
    } else {
      ExpandedText(text);
      ExpandedBreaks(text);
    }
  }

  lemma {:induction false} CleanIsCollapsed(text: string)
    requires '\r' !in text
    ensures CollapseCrlf(text) == text && !HasCrlf(text)
  {
    if text != "" {
      CleanIsCollapsed(text[1..]);
      assert text == [text[0]] + text[1..];
    }
  }

  /** One character of a text and what it expands to. */
  lemma {:induction false} ExpandHead(text: string)
    requires Clean(text) && text != ""
    ensures Clean(text[1..]) && text == [text[0]] + text[1..]
    ensures Expand(text, CRLF) == (if text[0] == '\n' then "\r\n" else [text[0]]) + Expand(text[1..], CRLF)
    ensures text[0] != '\r' && text[0] != '\0'
  {
  }

  lemma {:induction false} PairAt(tail: string)
    ensures CollapseCrlf("\r\n" + tail) == "\n" + CollapseCrlf(tail)
    ensures HasCrlf("\r\n" + tail) && DropCrlf("\r\n" + tail) == DropCrlf(tail)
  {
    assert ("\r\n" + tail)[2..] == tail;
  }

  lemma {:induction false} CharAt(c: char, tail: string)
    requires c != '\r'
    ensures CollapseCrlf([c] + tail) == [c] + CollapseCrlf(tail)
    ensures HasCrlf([c] + tail) == HasCrlf(tail) && DropCrlf([c] + tail) == [c] + DropCrlf(tail)
  {
    assert ([c] + tail)[1..] == tail;
  }

  lemma {:induction false} ExpandedText(text: string)
    requires Clean(text)
    ensures CollapseCrlf(Expand(text, CRLF)) == text
    ensures '\0' !in Expand(text, CRLF)
  {
    if text != "" {
      ExpandHead(text);
      ExpandedText(text[1..]);
      hide CollapseCrlf, Expand, Clean;
      if text[0] == '\n' { PairAt(Expand(text[1..], CRLF)); } else { CharAt(text[0], Expand(text[1..], CRLF)); }
    }
  }

  lemma {:induction false} ExpandedBreaks(text: string)
    requires Clean(text)
    ensures HasCrlf(Expand(text, CRLF)) <==> '\n' in text
    ensures '\n' !in DropCrlf(Expand(text, CRLF))
    ensures ('\n' in Expand(text, CRLF)) <==> '\n' in text
  {
    if text != "" {
      ExpandHead(text);
      ExpandedBreaks(text[1..]);
      hide HasCrlf, DropCrlf, Expand, Clean;
      if text[0] == '\n' { PairAt(Expand(text[1..], CRLF)); } else { CharAt(text[0], Expand(text[1..], CRLF)); }
    }
  }

  lemma {:induction false} CollapseExpand(text: string)
    requires '\r' !in CollapseCrlf(text)
    ensures '\n' !in DropCrlf(text) ==> Expand(CollapseCrlf(text), CRLF) == text
    ensures !HasCrlf(text) ==> CollapseCrlf(text) == text
    ensures '\0' !in text ==> '\0' !in CollapseCrlf(text)
  {
    if text == "" {
    } else if |text| >= 2 && text[0] == '\r' && text[1] == '\n' {
      var c := CollapseCrlf(text[2..]);
      assert CollapseCrlf(text) == "\n" + c;
      assert forall x :: x in c ==> x in CollapseCrlf(text);
      CollapseExpand(text[2..]);
      assert text == "\r\n" + text[2..];
      assert ("\n" + c)[1..] == c;
    } else {
      var c := CollapseCrlf(text[1..]);
      assert CollapseCrlf(text) == [text[0]] + c;
      assert forall x :: x in c ==> x in CollapseCrlf(text);
      assert forall x :: x in DropCrlf(text[1..]) ==> x in DropCrlf(text);
      assert text[0] in CollapseCrlf(text);
      assert text[0] in DropCrlf(text);
      CollapseExpand(text[1..]);
      assert text == [text[0]] + text[1..];
      assert ([text[0]] + c)[1..] == c;
    }
  }

  lemma {:induction false} LfIsIdentity(text: string)
    ensures Expand(text, LF) == text
  {
    if text != "" {
      LfIsIdentity(text[1..]);
      assert text == [text[0]] + text[1..];
    }
  }

  // ----- splitting and joining

  lemma {:induction false} JoinSplit(text: string)
    ensures Join(Split(text)) == text
    ensures forall p | p in Split(text) :: '\n' !in p && (Clean(text) ==> NoBreaks(p))
  {
    JoinOfSplit(text);
    SplitParts(text);
  }

  lemma {:induction false} JoinOfSplit(text: string)
    ensures Join(Split(text)) == text
  {
    if text != "" {
      JoinOfSplit(text[1..]);
      var rest := Split(text[1..]);
      assert text == [text[0]] + text[1..];
      if text[0] == '\n' {
        assert Split(text)[1..] == rest;
      } else {
        assert Split(text)[1..] == rest[1..];
      }
    }
  }

  lemma {:induction false} SplitParts(text: string)
    ensures forall p | p in Split(text) :: '\n' !in p && (Clean(text) ==> NoBreaks(p))
  {
    if text != "" {
      SplitParts(text[1..]);
      var parts, rest := Split(text), Split(text[1..]);
      assert text == [text[0]] + text[1..];
      assert forall p | p in parts :: p == parts[0] || p in rest;
      assert rest[0] in rest;
    }
  }

  lemma {:induction false} SplitAt(body: string, tail: string)
    requires '\n' !in body
    ensures Split(body + "\n" + tail) == [body] + Split(tail)
  {
    var whole := body + "\n" + tail;
    if body == "" {
      assert whole[1..] == tail;
    } else {
      SplitAt(body[1..], tail);
      assert whole[1..] == body[1..] + "\n" + tail;
      assert body == [body[0]] + body[1..];
      assert ([body[1..]] + Split(tail))[1..] == Split(tail);
    }
  }

  lemma {:induction false} SplitSingle(body: string)
    requires '\n' !in body
    ensures Split(body) == [body]
  {
    if body != "" {
      SplitSingle(body[1..]);
      assert body == [body[0]] + body[1..];
    }
  }

  lemma {:induction false} SplitJoin(parts: seq<string>)
    requires |parts| >= 1 && forall p | p in parts :: '\n' !in p
    ensures Split(Join(parts)) == parts
  {
    if |parts| == 1 {
      SplitSingle(parts[0]);
      assert parts == [parts[0]];
    } else {
      SplitJoin(parts[1..]);
      SplitAt(parts[0], Join(parts[1..]));
      assert parts == [parts[0]] + parts[1..];
    }
  }

  /** Lines joined with a newline and terminated by one are read back line by line. */
  lemma {:induction false} JoinedLinesReadBack(lines: seq<string>, newline: string)
    requires |lines| >= 1 && forall l | l in lines :: NoBreaks(l)
    requires newline == LF || newline == CRLF
    ensures Lines(Expand(Join(lines) + "\n", newline)) == Ok(lines)
    ensures Style(Expand(Join(lines) + "\n", newline)) == newline
  {
    var text := Join(lines) + "\n";
    JoinWithEmptyLast(lines);
    SplitJoin(lines + [""]);
    JoinClean(lines);
    ExpandFacts(text, newline);
    assert text[|text| - 1] == '\n';
    assert (lines + [""])[..|lines|] == lines;
  }

  lemma {:induction false} JoinWithEmptyLast(lines: seq<string>)
    requires |lines| >= 1
    ensures Join(lines + [""]) == Join(lines) + "\n"
  {
    if |lines| > 1 {
      JoinWithEmptyLast(lines[1..]);
      assert (lines + [""])[1..] == lines[1..] + [""];
      assert lines[0] + "\n" + (Join(lines[1..]) + "\n") == (lines[0] + "\n" + Join(lines[1..])) + "\n";
    } else {
      assert (lines + [""])[1..] == [""];
    }
  }

  lemma {:induction false} JoinClean(lines: seq<string>)
    requires forall l | l in lines :: NoBreaks(l)
    ensures Clean(Join(lines))
  {
    if lines != [] {
      assert NoBreaks(lines[0]);
      JoinClean(lines[1..]);
    }
  }

  // ----- lines that keep their terminators

  lemma {:induction false} ConcatTerminate(parts: seq<string>)
    requires |parts| >= 1 && forall p | p in parts :: NoBreaks(p)
    ensures Concat(Terminate(parts)) == Join(parts)
    ensures LineSeq(Terminate(parts))
  {
    if |parts| == 1 {
      assert parts == [parts[0]];
      assert Concat([parts[0]]) == parts[0] + Concat([]);
    } else {
      ConcatTerminate(parts[1..]);
      var rest := Terminate(parts[1..]);
      var all := [parts[0] + "\n"] + rest;
      assert all[1..] == rest;
      assert WholeLine(all[0]) by { assert (parts[0] + "\n")[..|parts[0]|] == parts[0]; }
      assert forall i | 1 <= i < |all| :: all[i] == rest[i - 1];
    }
  }

  lemma {:induction false} ConcatClean(lines: seq<string>)
    requires forall i | 0 <= i < |lines| :: Clean(lines[i])
    ensures Clean(Concat(lines))
  {
    if lines != [] {
      ConcatClean(lines[1..]);
    }
  }

  lemma {:induction false} KeepEndsConcat(lines: seq<string>)
    requires LineSeq(lines)
    ensures KeepEnds(Concat(lines)) == lines
    ensures Clean(Concat(lines))
  {
    if lines == [] {
    } else {
      var line := lines[0];
      assert LineSeq(lines[1..]);
      KeepEndsConcat(lines[1..]);
      assert lines == [line] + lines[1..];
      if WholeLine(line) {
        var body := line[..|line| - 1];
        assert line == body + "\n";
        SplitAt(body, Concat(lines[1..]));
        assert ([body] + Split(Concat(lines[1..])))[1..] == Split(Concat(lines[1..]));
      } else {
        assert lines[1..] == [];
        assert Concat(lines) == line;
        SplitSingle(line);
      }
    }
  }

  // ----- the two directions of "text = lines + newline style"

  /** Rendered lines are accepted and read back as the same lines, with a uniform newline style. */
  lemma {:induction false} RenderReadsBack(lines: seq<string>, newline: string)
    requires LineSeq(lines) && (newline == LF || newline == CRLF)
    ensures Readable(Render(lines, newline))
    ensures LinesKeepEnds(Render(lines, newline)) == Ok(lines)
    ensures '\n' in Concat(lines) ==> Style(Render(lines, newline)) == newline
  {
    KeepEndsConcat(lines);
    ExpandFacts(Concat(lines), newline);
  }

  /** Every accepted text is its own lines rendered in its own style. */
  lemma {:induction false} ReadableIsRendered(text: string)
    requires Readable(text)
    ensures LineSeq(LinesKeepEnds(text).value)
    ensures Concat(LinesKeepEnds(text).value) == CollapseCrlf(text)
    ensures Render(LinesKeepEnds(text).value, Style(text)) == text
    ensures '\n' !in text ==> forall newline :: Render(LinesKeepEnds(text).value, newline) == text
  {
    var x := CollapseCrlf(text);
    CollapseExpand(text);
    JoinSplit(x);
    ConcatTerminate(Split(x));
    LfIsIdentity(x);
    if '\n' !in text {
      NoCrlfWithoutLf(text);
      forall newline ensures Expand(x, newline) == x {
        ExpandWithoutLf(x, newline);
      }
    }
  }

  lemma {:induction false} NoCrlfWithoutLf(text: string)
    requires '\n' !in text
    ensures !HasCrlf(text)
  {
    if text != "" { NoCrlfWithoutLf(text[1..]); }
  }

  lemma {:induction false} ExpandWithoutLf(text: string, newline: string)
    requires '\n' !in text
    ensures Expand(text, newline) == text
  {
    if text != "" {
      ExpandWithoutLf(text[1..], newline);
      assert text == [text[0]] + text[1..];
    }
  }

  /** The two readings of a text have the same lines, up to the terminators. */
  lemma {:induction false} BareAndKept(text: string)
    ensures |BareLines(text)| == |KeepEnds(text)|
    ensures forall i | 0 <= i < |BareLines(text)| ::
              KeepEnds(text)[i] == BareLines(text)[i]
                + (if i == |BareLines(text)| - 1 && !EndsWithNewline(text) then "" else "\n")
    ensures forall l | l in BareLines(text) :: '\n' !in l && (Clean(text) ==> NoBreaks(l))
  {
    hide *;
    var parts := Split(text);
    JoinSplit(text);
    TerminateAt(parts);
    JoinEnd(parts);
    BareOfParts(text);
  }

  lemma {:induction false} BareOfParts(text: string)
    ensures KeepEnds(text) == Terminate(Split(text))
    ensures BareLines(text) == if EndsWithNewline(text) then Split(text)[..|Split(text)| - 1]
                               else if text != "" then Split(text) else []
  {
    hide Split, Terminate, EndsWithNewline;
  }

  lemma {:induction false} TerminateAt(parts: seq<string>)
    requires |parts| >= 1
    ensures |Terminate(parts)| == |parts| - (if parts[|parts| - 1] == "" then 1 else 0)
    ensures forall i | 0 <= i < |parts| - 1 :: Terminate(parts)[i] == parts[i] + "\n"
    ensures parts[|parts| - 1] != "" ==> Terminate(parts)[|parts| - 1] == parts[|parts| - 1]
  {
    if |parts| > 1 {
      TerminateAt(parts[1..]);
    }
  }

  lemma {:induction false} JoinEnd(parts: seq<string>)
    requires |parts| >= 1 && forall p | p in parts :: '\n' !in p
    ensures EndsWithNewline(Join(parts)) <==> |parts| > 1 && parts[|parts| - 1] == ""
    ensures Join(parts) == "" <==> parts == [""]
  {
    if |parts| > 1 {
      JoinEnd(parts[1..]);
      assert parts[1..][|parts| - 2] == parts[|parts| - 1];
      if Join(parts[1..]) == "" {
        assert Join(parts) == parts[0] + "\n";
        assert |parts[1..]| == 1;
      } else {
        var j := Join(parts);
        assert j[|j| - 1] == Join(parts[1..])[|Join(parts[1..])| - 1];
        if |parts[1..]| == 1 { assert parts[1..][0] in parts; }
      }
    } else {
      assert parts == [parts[0]];
      assert parts[0] in parts;
    }
  }
}
