/** Taking markdown fences and heredoc lines off a text before it is read as a patch. */
module PatchFences {
  import opened Results
  import opened Sequences
  import opened PatchText

  /** The Unicode classes of white space and of word characters. */
  datatype Chars = Chars(isSpace: char -> bool, isWord: char -> bool)

  const FENCE := "```"
  const HEREDOC := "<<"

  /** The words that close a heredoc. */
  function EndWords(): set<string> { {".", "EOF", "PATCH"} }

  // ----- stripping characters

  function Run(text: string, p: char -> bool): (n: nat)
    ensures n <= |text|
  {
    if text == "" || !p(text[0]) then 0 else 1 + Run(text[1..], p)
  }

  function TrimEnd(text: string, p: char -> bool): (r: string)
    ensures |r| <= |text|
  {
    if text == "" || !p(text[|text| - 1]) then text else TrimEnd(text[..|text| - 1], p)
  }

  /** text.strip(characters with p) */
  function Trim(text: string, p: char -> bool): (r: string)
    ensures |r| <= |text|
  {
    TrimEnd(text[Run(text, p)..], p)
  }

  function IsBreak(): char -> bool { c => c == '\r' || c == '\n' }

  // ----- the pattern of a whole fenced block

  /** `\s*$` matches: nothing but white space up to the end of the line. */
  predicate BlankToEnd(chars: Chars, text: string) {
    text == "" || text[0] == '\n' || (chars.isSpace(text[0]) && BlankToEnd(chars, text[1..]))
  }

  /** A closing fence: its line starts behind position `at` and holds nothing else. */
  predicate ClosesAt(chars: Chars, text: string, at: nat)
    requires at <= |text|
  {
    StartsWith(text[at..], "\n" + FENCE) && BlankToEnd(chars, text[at..][1 + |FENCE|..])
  }

  function FirstClose(chars: Chars, text: string, from: nat): (r: Option<nat>)
    requires from <= |text|
    ensures r.Some? ==> from <= r.value <= |text| && ClosesAt(chars, text, r.value)
    ensures r.Some? ==> forall i | from <= i < r.value :: !ClosesAt(chars, text, i)
    ensures r.None? ==> forall i | from <= i <= |text| :: !ClosesAt(chars, text, i)
    decreases |text| - from
  {
    if ClosesAt(chars, text, from) then Some(from)
    else if from == |text| then None
    else FirstClose(chars, text, from + 1)
  }

  /** The last line end before `end`, not before `from`. */
  function LastBreak(text: string, from: nat, end: nat): (r: Option<nat>)
    requires from <= end <= |text|
    ensures r.Some? ==> from <= r.value < end && text[r.value] == '\n'
    decreases end
  {
    if from == end then None else if text[end - 1] == '\n' then Some(end - 1) else LastBreak(text, from, end - 1)
  }

  /** The white space behind the tag is taken as far as possible, and given back line end by
      line end until a closing fence follows; the content ends at the first one. */
  function Content(chars: Chars, text: string, from: nat, end: nat): Option<string>
    requires from <= end <= |text|
    decreases end
  {
    match LastBreak(text, from, end)
    case None => None
    case Some(i) =>
      match FirstClose(chars, text, i + 1)
      case Some(at) => Some(text[i + 1..at])
      case None => Content(chars, text, from, i)
  }

  /** The tag is taken whole, for no word character is white space. */
  function Fenced(chars: Chars, text: string): Option<string> {
    if !StartsWith(text, FENCE) then None
    else
      var word := |FENCE| + Run(text[|FENCE|..], chars.isWord);
      Content(chars, text, word, word + Run(text[word..], chars.isSpace))
  }

  // ----- line by line

  function DropFirst(lines: seq<string>, drop: bool): seq<string> { if drop && lines != [] then lines[1..] else lines }

  function DropLast(lines: seq<string>, drop: bool): seq<string> {
    if drop && lines != [] then lines[..|lines| - 1] else lines
  }

  predicate Opens(chars: Chars, lines: seq<string>, prefix: string) {
    lines != [] && StartsWith(Trim(lines[0], chars.isSpace), prefix)
  }

  predicate EndsAs(chars: Chars, lines: seq<string>, words: set<string>) {
    lines != [] && Trim(lines[|lines| - 1], chars.isSpace) in words
  }

  /** Fence lines at either end, then heredoc lines: a closing word counts only behind an opening. */
  function Unwrapped(chars: Chars, lines: seq<string>): seq<string> {
    var rest := DropFirst(lines, Opens(chars, lines, FENCE));
    var inner := DropLast(rest, EndsAs(chars, rest, {FENCE}));
    if Opens(chars, inner, HEREDOC) then DropLast(inner[1..], EndsAs(chars, inner[1..], EndWords()))
    else inner
  }

  function JoinLines(lines: seq<string>): string { if lines == [] then "" else Join(lines) }

  /** strip_fences */
  function Stripped(chars: Chars, text: string): string {
    var raw := Trim(text, IsBreak());
    if raw == "" then ""
    else if !StartsWith(raw, FENCE) && !StartsWith(raw, HEREDOC) then raw
    else
      match Fenced(chars, raw)
      case Some(content) => Trim(content, IsBreak())
      case None => Trim(JoinLines(Unwrapped(chars, Split(CollapseCrlf(raw)))), IsBreak())
  }

  method StripFences(chars: Chars, text: string) returns (r: string)
    ensures r == Stripped(chars, text)
  {
    hide Trim, Fenced, Split, CollapseCrlf, StartsWith, Join;
    var raw := Trim(text, IsBreak());
    if raw == "" { return ""; }
    if !(StartsWith(raw, FENCE) || StartsWith(raw, HEREDOC)) { return raw; }
    var content := Fenced(chars, raw);
    if content.Some? { return Trim(content.value, IsBreak()); }
    var lines := Split(CollapseCrlf(raw));
    if lines != [] && StartsWith(Trim(lines[0], chars.isSpace), FENCE) {
      lines := lines[1..];
    }
    if lines != [] && Trim(lines[|lines| - 1], chars.isSpace) == FENCE {
      lines := lines[..|lines| - 1];
    }
    if lines != [] && StartsWith(Trim(lines[0], chars.isSpace), HEREDOC) {
      lines := lines[1..];
      if lines != [] && Trim(lines[|lines| - 1], chars.isSpace) in EndWords() {
        lines := lines[..|lines| - 1];
      }
    }
    return Trim(JoinLines(lines), IsBreak());
  }

  // ----- line ends around the text

  /** What holds of the classes in Unicode. */
  ghost predicate Unicode(chars: Chars) {
    && chars.isSpace('\n') && chars.isSpace('\r') && !chars.isSpace('`') && !chars.isSpace('<')
    && (forall word, c | word in EndWords() && c in word :: !chars.isSpace(c))
    && forall c | chars.isWord(c) :: !chars.isSpace(c)
  }

  predicate All(text: string, p: char -> bool) { forall c | c in text :: p(c) }

  lemma {:induction false} RunMore(a: string, b: string, p: char -> bool)
    requires All(a, p)
    ensures Run(a + b, p) == |a| + Run(b, p)
  {
    if a == "" {
      assert a + b == b;
    } else {
      assert (a + b)[1..] == a[1..] + b && a[0] in a;
      RunMore(a[1..], b, p);
    }
  }

  lemma {:induction false} RunAll(text: string, p: char -> bool)
    ensures All(text[..Run(text, p)], p)
    ensures Run(text, p) < |text| ==> !p(text[Run(text, p)])
    ensures Run(text, p) == |text| <==> All(text, p)
  {
    if text != "" && p(text[0]) {
      RunAll(text[1..], p);
      var n := Run(text[1..], p);
      assert text[..n + 1] == [text[0]] + text[1..][..n] && text == [text[0]] + text[1..];
    } else if text != "" {
      assert text[0] in text;
    }
  }

  lemma {:induction false} RunStops(a: string, b: string, p: char -> bool)
    requires !All(a, p)
    ensures Run(a + b, p) == Run(a, p) < |a|
  {
    assert a != "" && (a + b)[0] == a[0];
    if p(a[0]) {
      assert a == [a[0]] + a[1..] && (a + b)[1..] == a[1..] + b;
      RunStops(a[1..], b, p);
    }
  }

  lemma {:induction false} TrimEndMore(text: string, trail: string, p: char -> bool)
    requires All(trail, p)
    ensures TrimEnd(text + trail, p) == TrimEnd(text, p)
  {
    if trail == "" {
      assert text + trail == text;
    } else {
      var front := trail[..|trail| - 1];
      assert (text + trail)[..|text + trail| - 1] == text + front;
      assert (text + trail)[|text + trail| - 1] == trail[|trail| - 1] && trail[|trail| - 1] in trail;
      assert forall c | c in front :: c in trail;
      TrimEndMore(text, front, p);
    }
  }

  lemma {:induction false} TrimEndAll(text: string, p: char -> bool)
    ensures TrimEnd(text, p) <= text && All(text[|TrimEnd(text, p)|..], p)
    ensures TrimEnd(text, p) != "" ==> !p(TrimEnd(text, p)[|TrimEnd(text, p)| - 1])
  {
    if text != "" && p(text[|text| - 1]) {
      var front := text[..|text| - 1];
      TrimEndAll(front, p);
      assert text == front + [text[|text| - 1]];
      assert text[|TrimEnd(text, p)|..] == front[|TrimEnd(text, p)|..] + [text[|text| - 1]];
    }
  }

  /** Stripping takes no notice of characters it strips around a text. */
  lemma {:induction false} TrimAround(lead: string, text: string, trail: string, p: char -> bool)
    requires All(lead, p) && All(trail, p)
    ensures Trim(lead + text + trail, p) == Trim(text, p)
  {
    hide Run, TrimEnd, All;
    var whole := lead + text + trail;
    assert whole == lead + (text + trail);
    RunMore(lead, text + trail, p);
    RunAll(text, p);
    if All(text, p) {
      RunMore(text, trail, p);
      RunAll(trail, p);
      assert whole[Run(whole, p)..] == "" && text[Run(text, p)..] == "";
    } else {
      RunStops(text, trail, p);
      assert whole[Run(whole, p)..] == text[Run(text, p)..] + trail;
      TrimEndMore(text[Run(text, p)..], trail, p);
    }
  }

  /** Line ends around a text never matter. */
  lemma {:induction false} BreaksAroundAreIgnored(chars: Chars, lead: string, text: string, trail: string)
    requires All(lead, IsBreak()) && All(trail, IsBreak())
    ensures Stripped(chars, lead + text + trail) == Stripped(chars, text)
  {
    TrimAround(lead, text, trail, IsBreak());
    hide Trim, Fenced, Unwrapped, Split, CollapseCrlf, StartsWith, All;
  }

  /** The text neither begins nor ends with a line end. */
  predicate Trimmed(text: string) {
    text != "" && !IsBreak()(text[0]) && !IsBreak()(text[|text| - 1])
  }

  lemma {:induction false} TrimKeeps(text: string)
    requires Trimmed(text)
    ensures Trim(text, IsBreak()) == text
  {
    assert text[0..] == text;
  }

  // ----- what fences change

  /** Where reading starts in a fenced body: behind the last line end of the white space it begins with,
      which goes with the opening fence. */
  function Skipped(chars: Chars, body: string): (s: nat)
    ensures s <= |body|
  {
    match LastBreak(body, 0, Run(body, chars.isSpace))
    case None => 0
    case Some(i) => i + 1
  }

  /** Where reading ends: in front of the first line that closes the fence. */
  function FenceEnd(chars: Chars, body: string, from: nat): (e: nat)
    requires from <= |body|
    ensures from <= e <= |body|
  {
    match FirstClose(chars, body, from)
    case None => |body|
    case Some(at) => at
  }

  lemma {:induction false} BlankBefore(chars: Chars, text: string, tail: string)
    requires chars.isSpace('\n')
    ensures BlankToEnd(chars, text + "\n" + tail) <==> BlankToEnd(chars, text)
  {
    if text == "" {
      assert (text + "\n" + tail)[0] == '\n';
    } else {
      BlankBefore(chars, text[1..], tail);
      assert (text + "\n" + tail)[1..] == text[1..] + "\n" + tail && (text + "\n" + tail)[0] == text[0];
    }
  }

  lemma {:induction false} SpaceIsBlank(chars: Chars, text: string)
    requires All(text, chars.isSpace)
    ensures BlankToEnd(chars, text)
  {
    if text != "" {
      assert text[0] in text;
      SpaceIsBlank(chars, text[1..]);
    }
  }

  /** A closing fence behind the body does not make lines of the body into fences. */
  lemma {:induction false} ClosesInside(chars: Chars, before: string, body: string, rest: string, i: nat)
    requires i < |body| && chars.isSpace('\n')
    ensures ClosesAt(chars, before + body + "\n" + FENCE + rest, |before| + i) <==> ClosesAt(chars, body, i)
  {
    hide BlankToEnd;
    var tail, part := FENCE + rest, body[i..];
    var text := before + body + "\n" + FENCE + rest;
    assert text[|before| + i..] == part + "\n" + tail;
    if |part| >= 4 {
      assert (part + "\n" + tail)[..4] == part[..4];
      assert (part + "\n" + tail)[4..] == part[4..] + "\n" + tail;
      BlankBefore(chars, part[4..], tail);
    } else {
      assert (part + "\n" + tail)[|part|] == '\n' && ("\n" + FENCE)[|part|] == '`';
    }
  }

  lemma {:induction false} ClosesAtEnd(chars: Chars, before: string, body: string, rest: string)
    requires All(rest, chars.isSpace)
    ensures ClosesAt(chars, before + body + "\n" + FENCE + rest, |before| + |body|)
  {
    var text := before + body + "\n" + FENCE + rest;
    assert text[|before| + |body|..] == "\n" + FENCE + rest;
    assert ("\n" + FENCE + rest)[..4] == "\n" + FENCE && ("\n" + FENCE + rest)[4..] == rest;
    SpaceIsBlank(chars, rest);
  }

  /** No fence closes in the white space behind the last one. */
  lemma {:induction false} NothingCloses(chars: Chars, before: string, rest: string, i: nat)
    requires Unicode(chars) && All(rest, chars.isSpace) && |before| <= i <= |before + FENCE + rest|
    ensures !ClosesAt(chars, before + FENCE + rest, i)
  {
    RestChars(chars, before, rest);
    if ClosesAt(chars, before + FENCE + rest, i) { ClosesMeans(chars, before + FENCE + rest, i); }
  }

  lemma {:induction false} ClosesMeans(chars: Chars, text: string, i: nat)
    requires i <= |text| && ClosesAt(chars, text, i)
    ensures i + 1 < |text| && text[i] == '\n' && text[i + 1] == '`'
  {
    assert text[i..][..4][0] == '\n' && text[i..][..4][1] == '`';
  }

  lemma {:induction false} RestChars(chars: Chars, before: string, rest: string)
    requires Unicode(chars) && All(rest, chars.isSpace)
    ensures var text := before + FENCE + rest;
            && (forall j | |before| <= j < |before| + 3 :: text[j] == '`')
            && forall j | |before| + 3 <= j < |text| :: chars.isSpace(text[j])
  {
    var text := before + FENCE + rest;
    forall j | |before| + 3 <= j < |text| ensures chars.isSpace(text[j]) {
      assert text[j] == rest[j - |before| - 3] && text[j] in rest;
    }
  }

  lemma {:induction false} LastBreakIs(text: string, from: nat, end: nat, i: nat)
    requires from <= i < end <= |text| && text[i] == '\n' && forall j | i < j < end :: text[j] != '\n'
    ensures LastBreak(text, from, end) == Some(i)
    decreases end
  {
    if i < end - 1 { LastBreakIs(text, from, end - 1, i); }
  }

  lemma {:induction false} NoBreakAfter(text: string, from: nat, end: nat)
    requires from <= end <= |text|
    ensures match LastBreak(text, from, end)
            case None => forall j | from <= j < end :: text[j] != '\n'
            case Some(i) => forall j | i < j < end :: text[j] != '\n'
    decreases end
  {
    if from < end && text[end - 1] != '\n' { NoBreakAfter(text, from, end - 1); }
  }

  /** The content found once the white space is taken up to the first visible character of the body. */
  lemma {:induction false} ContentIs(chars: Chars, head: string, gap: string, body: string, rest: string)
    requires Unicode(chars) && All(rest, chars.isSpace)
    ensures var before := head + gap + "\n";
            var s := Skipped(chars, body);
            Content(chars, before + body + "\n" + FENCE + rest, |head|, |before| + Run(body, chars.isSpace))
            == Some(body[s..FenceEnd(chars, body, s)])
  {
    hide ClosesAt, FirstClose, Run, All, LastBreak;
    var before := head + gap + "\n";
    var text := before + body + "\n" + FENCE + rest;
    var k, s := Run(body, chars.isSpace), Skipped(chars, body);
    NoBreakAfter(body, 0, k);
    assert text[|before| - 1] == '\n';
    assert text[|before| + s - 1] == '\n';
    forall j | |before| + s - 1 < j < |before| + k ensures text[j] != '\n' { assert text[j] == body[j - |before|]; }
    LastBreakIs(text, |head|, |before| + k, |before| + s - 1);
    FirstCloseIs(chars, before, body, rest, s);
    var e := FenceEnd(chars, body, s);
    assert text[|before| + s..|before| + e] == body[s..e];
  }

  lemma {:induction false} FirstCloseIs(chars: Chars, before: string, body: string, rest: string, s: nat)
    requires Unicode(chars) && All(rest, chars.isSpace) && s <= |body|
    ensures FirstClose(chars, before + body + "\n" + FENCE + rest, |before| + s)
         == Some(|before| + FenceEnd(chars, body, s))
  {
    hide ClosesAt, FirstClose, All, FenceEnd;
    var text := before + body + "\n" + FENCE + rest;
    var e := FenceEnd(chars, body, s);
    FenceEndIs(chars, body, s);
    if e < |body| { ClosesInside(chars, before, body, rest, e); } else { ClosesAtEnd(chars, before, body, rest); }
    assert ClosesAt(chars, text, |before| + e);
    var at := FirstClose(chars, text, |before| + s).value;
    if at < |before| + e { ClosesInside(chars, before, body, rest, at - |before|); }
  }

  lemma {:induction false} FenceEndIs(chars: Chars, body: string, from: nat)
    requires from <= |body|
    ensures var e := FenceEnd(chars, body, from);
            && (e < |body| ==> ClosesAt(chars, body, e))
            && forall i | from <= i < e :: !ClosesAt(chars, body, i)
  {
    hide ClosesAt, FirstClose;
  }

  lemma {:induction false} NothingClosesAtEnd(chars: Chars, body: string)
    ensures !ClosesAt(chars, body, |body|)
  {
  }

  /** Over a blank body the white space runs on to the closing fence, and is given back. */
  lemma {:induction false} BlankBodyGivesBack(chars: Chars, head: string, gap: string, body: string, rest: string)
    requires Unicode(chars) && All(rest, chars.isSpace)
    ensures var before := head + gap + "\n";
            var text := before + body + "\n" + FENCE + rest;
            Content(chars, text, |head|, |before| + |body| + 1) == Content(chars, text, |head|, |before| + |body|)
  {
    hide ClosesAt, FirstClose, All, LastBreak;
    var before := head + gap + "\n";
    var text := before + body + "\n" + FENCE + rest;
    assert text[|before| + |body|] == '\n';
    LastBreakIs(text, |head|, |before| + |body| + 1, |before| + |body|);
    assert text == (before + body + "\n") + FENCE + rest;
    forall i | |before| + |body| + 1 <= i <= |text| ensures !ClosesAt(chars, text, i) {
      NothingCloses(chars, before + body + "\n", rest, i);
    }
  }

  lemma {:induction false} FencedIs(chars: Chars, tag: string, gap: string, body: string, rest: string)
    requires Unicode(chars) && All(tag, chars.isWord) && All(gap, chars.isSpace) && All(rest, chars.isSpace)
    ensures var s := Skipped(chars, body);
            Fenced(chars, FENCE + tag + gap + "\n" + body + "\n" + FENCE + rest)
            == Some(body[s..FenceEnd(chars, body, s)])
  {
    hide *;
    var head, space, tail := FENCE + tag, gap + "\n", FENCE + rest;
    var before := head + gap + "\n";
    var text := FENCE + tag + gap + "\n" + body + "\n" + FENCE + rest;
    SpaceBeforeBody(chars, gap, rest);
    FencedFrom(chars, tag, space, body + "\n" + tail);
    SpaceRun(chars, space, body, tail);
    assert text == FENCE + tag + space + (body + "\n" + tail) && text == before + body + "\n" + FENCE + rest;
    assert |before| == |head| + |space|;
    ContentIs(chars, head, gap, body, rest);
    RunAll(body, chars.isSpace);
    if All(body, chars.isSpace) { BlankBodyGivesBack(chars, head, gap, body, rest); }
  }

  lemma {:induction false} SpaceBeforeBody(chars: Chars, gap: string, rest: string)
    requires Unicode(chars) && All(gap, chars.isSpace)
    ensures All(gap + "\n", chars.isSpace) && gap + "\n" != ""
    ensures FENCE + rest != "" && !chars.isSpace((FENCE + rest)[0])
  {
  }

  /** How far the white space behind the tag reaches. */
  lemma {:induction false} SpaceRun(chars: Chars, space: string, body: string, tail: string)
    requires Unicode(chars) && All(space, chars.isSpace) && tail != "" && !chars.isSpace(tail[0])
    ensures Run(space + (body + "\n" + tail), chars.isSpace)
         == |space| + if All(body, chars.isSpace) then |body| + 1 else Run(body, chars.isSpace)
  {
    RunMore(space, body + "\n" + tail, chars.isSpace);
    if All(body, chars.isSpace) {
      assert body + "\n" + tail == (body + "\n") + tail;
      RunMore(body + "\n", tail, chars.isSpace);
    } else {
      assert body + "\n" + tail == body + ("\n" + tail);
      RunStops(body, "\n" + tail, chars.isSpace);
    }
  }

  lemma {:induction false} FencedFrom(chars: Chars, tag: string, space: string, tail: string)
    requires Unicode(chars) && All(tag, chars.isWord) && All(space, chars.isSpace) && space != ""
    ensures var text := FENCE + tag + space + tail;
            Fenced(chars, text)
            == Content(chars, text, |FENCE + tag|, |FENCE + tag| + Run(space + tail, chars.isSpace))
  {
    hide Content, Run;
    var text := FENCE + tag + space + tail;
    assert text[..3] == FENCE && text[3..] == tag + (space + tail);
    RunMore(tag, space + tail, chars.isWord);
    assert space[0] in space && (space + tail)[0] == space[0];
    RunNone(space + tail, chars.isWord);
    assert text[|FENCE + tag|..] == space + tail;
  }

  lemma {:induction false} RunNone(text: string, p: char -> bool)
    requires text == "" || !p(text[0])
    ensures Run(text, p) == 0
  {
  }

  /** What a fenced block is read as, whatever stands in it: the body from behind the white-space lines it
      begins with up to its first line that closes a fence, without line ends around it. */
  lemma {:induction false} FencedBlockIs(chars: Chars, lead: string, tag: string, gap: string, body: string,
                                         rest: string)
    requires Unicode(chars) && All(lead, IsBreak()) && All(tag, chars.isWord)
    requires All(gap, chars.isSpace) && All(rest, chars.isSpace)
    ensures var s := Skipped(chars, body);
            Stripped(chars, lead + (FENCE + tag + gap + "\n" + body + "\n" + FENCE + rest))
            == Trim(body[s..FenceEnd(chars, body, s)], IsBreak())
  {
    hide *;
    var kept := TrimEnd(rest, IsBreak());
    var trail := rest[|kept|..];
    TrimEndAll(rest, IsBreak());
    assert rest == kept + trail;
    AllWithin(rest, kept, trail, chars.isSpace);
    var text := FENCE + tag + gap + "\n" + body + "\n" + FENCE + kept;
    assert lead + (FENCE + tag + gap + "\n" + body + "\n" + FENCE + rest) == lead + text + trail;
    BreaksAroundAreIgnored(chars, lead, text, trail);
    FencedIs(chars, tag, gap, body, kept);
    assert text == FENCE + (tag + gap + "\n" + body + "\n") + FENCE + kept;
    BetweenFences(tag + gap + "\n" + body + "\n", kept);
    StrippedBlock(chars, text, body[Skipped(chars, body)..FenceEnd(chars, body, Skipped(chars, body))]);
  }

  lemma {:induction false} AllWithin(text: string, a: string, b: string, p: char -> bool)
    requires text == a + b && All(text, p)
    ensures All(a, p) && All(b, p)
  {
  }

  lemma {:induction false} BetweenFences(middle: string, rest: string)
    requires rest != "" ==> !IsBreak()(rest[|rest| - 1])
    ensures var text := FENCE + middle + FENCE + rest;
            Trimmed(text) && StartsWith(text, FENCE)
  {
    var text := FENCE + middle + FENCE + rest;
    assert text[..3] == FENCE;
    if rest == "" { assert text[|text| - 1] == '`'; } else { assert text[|text| - 1] == rest[|rest| - 1]; }
  }

  lemma {:induction false} StrippedBlock(chars: Chars, text: string, content: string)
    requires Trimmed(text) && StartsWith(text, FENCE) && Fenced(chars, text) == Some(content)
    ensures Stripped(chars, text) == Trim(content, IsBreak())
  {
    TrimKeeps(text);
    hide Trim, Fenced, Unwrapped, Split, CollapseCrlf, StartsWith;
  }

  /** The text has a line that would close a fence. */
  predicate HasFenceLine(chars: Chars, body: string) {
    exists i | 0 <= i < |body| :: ClosesAt(chars, body, i)
  }

  /** The white space the text begins with reaches over a line end. */
  predicate LeadsBlank(chars: Chars, body: string) {
    '\n' in body[..Run(body, chars.isSpace)]
  }

  lemma {:induction false} WholeIsRead(chars: Chars, body: string)
    ensures Skipped(chars, body) == 0 <==> !LeadsBlank(chars, body)
    ensures FenceEnd(chars, body, 0) == |body| <==> !HasFenceLine(chars, body)
    ensures Skipped(chars, body) > 0 ==> Skipped(chars, body) <= Run(body, chars.isSpace)
  {
    hide ClosesAt, Run;
    var k := Run(body, chars.isSpace);
    NoBreakAfter(body, 0, k);
    assert forall j | 0 <= j < k :: body[..k][j] == body[j];
    NothingClosesAtEnd(chars, body);
  }

  lemma {:induction false} BlankWithReturn(chars: Chars, text: string)
    requires chars.isSpace('\r')
    ensures BlankToEnd(chars, text + "\r") <==> BlankToEnd(chars, text)
  {
    if text == "" {
      assert (text + "\r")[0] == '\r' && (text + "\r")[1..] == "";
    } else {
      BlankWithReturn(chars, text[1..]);
      assert (text + "\r")[1..] == text[1..] + "\r" && (text + "\r")[0] == text[0];
    }
  }

  lemma {:induction false} ClosesWithReturn(chars: Chars, body: string, i: nat)
    requires i <= |body| && chars.isSpace('\r')
    ensures ClosesAt(chars, body + "\r", i) <==> ClosesAt(chars, body, i)
  {
    hide BlankToEnd;
    var part := body[i..];
    assert (body + "\r")[i..] == part + "\r";
    if |part| >= 4 {
      assert (part + "\r")[..4] == part[..4] && (part + "\r")[4..] == part[4..] + "\r";
      BlankWithReturn(chars, part[4..]);
    } else if |part| == 3 {
      assert (part + "\r")[3] == '\r' && ("\n" + FENCE)[3] == '`';
    }
  }

  /** A carriage return at the end of a body changes nothing about where it is read. */
  lemma {:induction false} ReadWithReturn(chars: Chars, body: string)
    requires Unicode(chars)
    ensures HasFenceLine(chars, body + "\r") <==> HasFenceLine(chars, body)
    ensures LeadsBlank(chars, body + "\r") <==> LeadsBlank(chars, body)
  {
    hide ClosesAt;
    var more := body + "\r";
    forall i: nat | i <= |body| ensures ClosesAt(chars, more, i) <==> ClosesAt(chars, body, i) {
      ClosesWithReturn(chars, body, i);
    }
    NothingClosesAtEnd(chars, body);
    RunAll(body, chars.isSpace);
    hide Run;
    if All(body, chars.isSpace) {
      RunMore(body, "\r", chars.isSpace);
      RunMore("\r", "", chars.isSpace);
      RunAll("", chars.isSpace);
      assert "\r" + "" == "\r" && body[..|body|] == body && more[..|body| + 1] == more;
    } else {
      RunStops(body, "\r", chars.isSpace);
      assert more[..Run(body, chars.isSpace)] == body[..Run(body, chars.isSpace)];
    }
  }

  /** A body between fences, with any tag, white space beside the fences, line ends around them and either
      newline style in front of the closing one, is read as the body alone if and only if no line of it
      closes the fence and the white space it begins with reaches over no line end. */
  lemma {:induction false} FencesAreTransparent(chars: Chars, lead: string, tag: string, gap: string, body: string,
                                                end: string, rest: string)
    requires Unicode(chars) && Trimmed(body) && All(lead, IsBreak()) && All(tag, chars.isWord)
    requires All(gap, chars.isSpace) && All(rest, chars.isSpace) && (end == "" || end == "\r")
    ensures Stripped(chars, lead + (FENCE + tag + gap + "\n" + (body + end) + "\n" + FENCE + rest)) == body
            <==> !HasFenceLine(chars, body) && !LeadsBlank(chars, body)
  {
    hide *;
    var whole := body + end;
    var s := Skipped(chars, whole);
    var e := FenceEnd(chars, whole, s);
    FencedBlockIs(chars, lead, tag, gap, whole, rest);
    WholeIsRead(chars, whole);
    if end == "\r" { ReadWithReturn(chars, body); } else { assert whole == body; }
    TrimKeeps(body);
    if s == 0 && e == |whole| {
      assert whole[s..e] == body + end && "" + body + end == body + end;
      ReturnIsBreak(end);
      TrimAround("", body, end, IsBreak());
    } else {
      ShorterIsNot(chars, body, end, s, e);
    }
  }

  lemma {:induction false} ReturnIsBreak(end: string)
    requires end == "" || end == "\r"
    ensures All(end, IsBreak()) && All("", IsBreak())
  {
  }

  /** What stops short of the body, or begins behind its first line, is not the body. */
  lemma {:induction false} ShorterIsNot(chars: Chars, body: string, end: string, s: nat, e: nat)
    requires Trimmed(body) && (end == "" || end == "\r") && s == Skipped(chars, body + end)
    requires s <= e <= |body + end| && e == FenceEnd(chars, body + end, s) && (s > 0 || e < |body + end|)
    ensures Trim((body + end)[s..e], IsBreak()) != body
  {
    var whole := body + end;
    SkippedIsLong(chars, body, end);
    StopsBefore(chars, body, end, s);
    hide Skipped, FenceEnd, Trim;
  }

  lemma {:induction false} SkippedIsLong(chars: Chars, body: string, end: string)
    requires Trimmed(body)
    ensures Skipped(chars, body + end) != 1
  {
    assert (body + end)[0] == body[0];
  }

  lemma {:induction false} StopsBefore(chars: Chars, body: string, end: string, from: nat)
    requires Trimmed(body) && (end == "" || end == "\r") && from <= |body + end|
    ensures var e := FenceEnd(chars, body + end, from);
            e == |body + end| || e < |body|
  {
    var e := FenceEnd(chars, body + end, from);
    if e < |body + end| {
      assert (body + end)[e..][0] == '\n';
      assert (body + end)[e] == '\n';
    }
  }

  /** A text that begins with neither mark is read as it is. */
  lemma {:induction false} PlainTextIsKept(chars: Chars, text: string)
    requires Trimmed(text) && !StartsWith(text, FENCE) && !StartsWith(text, HEREDOC)
    ensures Stripped(chars, text) == text
  {
    TrimKeeps(text);
    hide Trim, Fenced, Unwrapped, Split, CollapseCrlf, StartsWith;
  }
}
