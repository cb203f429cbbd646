/** Hunks: the parser of the patch engine, the printer it undoes, and their correspondence. */
module PatchHunks {
  import opened Results
  import opened PatchText
  import opened PatchHeader

  function NoNewlineMarker(): (marker: string)
    ensures marker != "" && marker[0] == '\\'
  {
    "\\ No newline at end of file"
  }

  /** One body line; `noNewline` says that a no-newline marker follows it. */
  datatype BodyLine = BodyLine(kind: char, text: string, noNewline: bool)

  datatype Hunk = Hunk(header: string, lines: seq<BodyLine>)

  datatype Plan =
    | Diff(hunks: seq<Hunk>, newline: string)
    | Replacement(oldText: string, newText: string)

  predicate IsOld(kind: char) { kind == ' ' || kind == '-' }

  predicate IsNew(kind: char) { kind == ' ' || kind == '+' }

  predicate IsKind(kind: char) { kind == ' ' || kind == '+' || kind == '-' }

  function OldCount(body: seq<BodyLine>): nat {
    if body == [] then 0 else (if IsOld(body[0].kind) then 1 else 0) + OldCount(body[1..])
  }

  function NewCount(body: seq<BodyLine>): nat {
    if body == [] then 0 else (if IsNew(body[0].kind) then 1 else 0) + NewCount(body[1..])
  }

  // ----- reading

  function ParseBody(ls: seq<string>, oldLeft: nat, newLeft: nat): (r: Result<(seq<BodyLine>, seq<string>), PatchError>)
    ensures r.Ok? ==> |r.value.1| <= |ls|
  {
    if oldLeft == 0 && newLeft == 0 then Ok(([], ls))
    else if ls == [] || ls[0] == "" || !IsKind(ls[0][0]) then Err(InvalidPatch)
    else
      var kind := ls[0][0];
      if (IsOld(kind) && oldLeft == 0) || (IsNew(kind) && newLeft == 0) then Err(InvalidPatch)
      else
        var marked := |ls| > 1 && ls[1] == NoNewlineMarker();
        PrependLines([BodyLine(kind, ls[0][1..], marked)],
                     ParseBody(ls[if marked then 2 else 1..],
                               if IsOld(kind) then oldLeft - 1 else oldLeft,
                               if IsNew(kind) then newLeft - 1 else newLeft))
  }

  function PrependLines(body: seq<BodyLine>, r: Result<(seq<BodyLine>, seq<string>), PatchError>)
    : Result<(seq<BodyLine>, seq<string>), PatchError>
  {
    match r
    case Err(e) => Err(e)
    case Ok((more, rest)) => Ok((body + more, rest))
  }

  /** The hunks a run of lines begins with, and the lines behind them. */
  function ParseHunks(ls: seq<string>): Result<(seq<Hunk>, seq<string>), PatchError>
    decreases |ls|
  {
    if ls == [] || !StartsHunk(ls[0]) then Ok(([], ls))
    else
      match Coordinates(ls[0])
      case Err(e) => Err(e)
      case Ok(c) =>
        match ParseBody(ls[1..], c.oldCount, c.newCount)
        case Err(e) => Err(e)
        case Ok((body, rest)) => PrependHunks([Hunk(ls[0], body)], ParseHunks(rest))
  }

  function PrependHunks(hunks: seq<Hunk>, r: Result<(seq<Hunk>, seq<string>), PatchError>)
    : Result<(seq<Hunk>, seq<string>), PatchError>
  {
    match r
    case Err(e) => Err(e)
    case Ok((more, rest)) => Ok((hunks + more, rest))
  }

  /** The loop over the body lines of one hunk, from index `start` on. */
  method ParseBodyAt(lines: seq<string>, start: nat, oldCount: nat, newCount: nat)
    returns (r: Result<(seq<BodyLine>, nat), PatchError>)
    requires start <= |lines|
    ensures match ParseBody(lines[start..], oldCount, newCount)
            case Err(e) => r == Err(e)
            case Ok((body, rest)) =>
              r.Ok? && r.value.0 == body && start <= r.value.1 <= |lines| && lines[r.value.1..] == rest
  {
    hide NoNewlineMarker, ParseBody, PrependLines;
    var i := start;
    var body: seq<BodyLine> := [];
    var oldUsed, newUsed := 0, 0;
    PrependNone(ParseBody(lines[i..], oldCount, newCount));
    while oldUsed < oldCount || newUsed < newCount
      invariant start <= i <= |lines|
      invariant oldUsed <= oldCount && newUsed <= newCount
      invariant ParseBody(lines[start..], oldCount, newCount)
             == PrependLines(body, ParseBody(lines[i..], oldCount - oldUsed, newCount - newUsed))
      decreases |lines| - i
    {
      ParseBodyUnfolds(lines, i, oldCount - oldUsed, newCount - newUsed);
      if i >= |lines| || lines[i] == "" || !IsKind(lines[i][0]) {
        PrependError(body, InvalidPatch);
        return Err(InvalidPatch);
      }
      ghost var before := body;
      var kind, text := lines[i][0], lines[i][1..];
      oldUsed := oldUsed + if IsOld(kind) then 1 else 0;
      newUsed := newUsed + if IsNew(kind) then 1 else 0;
      if oldUsed > oldCount || newUsed > newCount {
        PrependError(body, InvalidPatch);
        return Err(InvalidPatch);
      }
      i := i + 1;
      var marked := false;
      if i < |lines| && lines[i] == NoNewlineMarker() {
        marked := true;
        i := i + 1;
      }
      body := body + [BodyLine(kind, text, marked)];
      PrependTwice(before, [BodyLine(kind, text, marked)],
                   ParseBody(lines[i..], oldCount - oldUsed, newCount - newUsed));
    }
    ParseBodyUnfolds(lines, i, 0, 0);
    PrependNothing(body, lines[i..]);
    return Ok((body, i));
  }

  lemma {:induction false} ParseBodyUnfolds(lines: seq<string>, i: nat, oldLeft: nat, newLeft: nat)
    requires i <= |lines|
    ensures oldLeft == 0 && newLeft == 0 ==> ParseBody(lines[i..], oldLeft, newLeft) == Ok(([], lines[i..]))
    ensures oldLeft > 0 || newLeft > 0 ==>
              ParseBody(lines[i..], oldLeft, newLeft) ==
              if i == |lines| || lines[i] == "" || !IsKind(lines[i][0])
                 || (IsOld(lines[i][0]) && oldLeft == 0) || (IsNew(lines[i][0]) && newLeft == 0)
              then Err(InvalidPatch)
              else
                var marked := i + 1 < |lines| && lines[i + 1] == NoNewlineMarker();
                PrependLines([BodyLine(lines[i][0], lines[i][1..], marked)],
                             ParseBody(lines[i + if marked then 2 else 1..],
                                       if IsOld(lines[i][0]) then oldLeft - 1 else oldLeft,
                                       if IsNew(lines[i][0]) then newLeft - 1 else newLeft))
  {
    hide NoNewlineMarker;
    if i < |lines| {
      assert lines[i..][1..] == lines[i + 1..];
      if i + 1 < |lines| {
        assert lines[i..][2..] == lines[i + 2..];
      }
    }
  }

  lemma {:induction false} PrependError(a: seq<BodyLine>, e: PatchError)
    ensures PrependLines(a, Err(e)) == Err(e)
  {
  }

  lemma {:induction false} PrependNothing(a: seq<BodyLine>, rest: seq<string>)
    ensures PrependLines(a, Ok(([], rest))) == Ok((a, rest))
  {
    assert a + [] == a;
  }

  method ParseHunksAt(lines: seq<string>, start: nat) returns (r: Result<(seq<Hunk>, nat), PatchError>)
    requires start <= |lines|
    ensures match ParseHunks(lines[start..])
            case Err(e) => r == Err(e)
            case Ok((hunks, rest)) =>
              r.Ok? && r.value.0 == hunks && r.value.1 <= |lines| && lines[r.value.1..] == rest
  {
    hide Coordinates, ParseBody;
    var hunks: seq<Hunk> := [];
    var i := start;
    PrependHunksNone(ParseHunks(lines[i..]));
    while i < |lines| && StartsHunk(lines[i])
      invariant start <= i <= |lines|
      invariant ParseHunks(lines[start..]) == PrependHunks(hunks, ParseHunks(lines[i..]))
    {
      var header := lines[i];
      assert lines[i..][1..] == lines[i + 1..];
      var coords := Coordinates(header);
      if coords.Err? { return Err(coords.error); }
      i := i + 1;
      var parsed := ParseBodyAt(lines, i, coords.value.oldCount, coords.value.newCount);
      if parsed.Err? { return Err(parsed.error); }
      i := parsed.value.1;
      PrependHunksTwice(hunks, [Hunk(header, parsed.value.0)], ParseHunks(lines[i..]));
      hunks := hunks + [Hunk(header, parsed.value.0)];
    }
    assert hunks + [] == hunks;
    return Ok((hunks, i));
  }

  lemma {:induction false} PrependNone(r: Result<(seq<BodyLine>, seq<string>), PatchError>)
    ensures PrependLines([], r) == r
  {
    if r.Ok? { assert [] + r.value.0 == r.value.0; }
  }

  lemma {:induction false} PrependHunksNone(r: Result<(seq<Hunk>, seq<string>), PatchError>)
    ensures PrependHunks([], r) == r
  {
    if r.Ok? { assert [] + r.value.0 == r.value.0; }
  }

  lemma {:induction false} PrependTwice(a: seq<BodyLine>, b: seq<BodyLine>,
                                        r: Result<(seq<BodyLine>, seq<string>), PatchError>)
    ensures PrependLines(a, PrependLines(b, r)) == PrependLines(a + b, r)
  {
    if r.Ok? { assert a + (b + r.value.0) == a + b + r.value.0; }
  }

  lemma {:induction false} PrependHunksTwice(a: seq<Hunk>, b: seq<Hunk>,
                                             r: Result<(seq<Hunk>, seq<string>), PatchError>)
    ensures PrependHunks(a, PrependHunks(b, r)) == PrependHunks(a + b, r)
  {
    if r.Ok? { assert a + (b + r.value.0) == a + b + r.value.0; }
  }

  // ----- printing

  function PrintLine(line: BodyLine): seq<string> {
    [[line.kind] + line.text] + (if line.noNewline then [NoNewlineMarker()] else [])
  }

  function PrintBody(body: seq<BodyLine>): seq<string> {
    if body == [] then [] else PrintLine(body[0]) + PrintBody(body[1..])
  }

  function PrintHunk(hunk: Hunk): seq<string> {
    [hunk.header] + PrintBody(hunk.lines)
  }

  function PrintHunks(hunks: seq<Hunk>): seq<string> {
    if hunks == [] then [] else PrintHunk(hunks[0]) + PrintHunks(hunks[1..])
  }

  predicate ValidKinds(body: seq<BodyLine>) {
    forall i | 0 <= i < |body| :: IsKind(body[i].kind)
  }

  /** A hunk whose header is readable and declares exactly the lines of its body. */
  predicate ValidHunk(hunk: Hunk) {
    && Coordinates(hunk.header).Ok?
    && ValidKinds(hunk.lines)
    && OldCount(hunk.lines) == Coordinates(hunk.header).value.oldCount
    && NewCount(hunk.lines) == Coordinates(hunk.header).value.newCount
  }

  predicate ValidHunks(hunks: seq<Hunk>) {
    forall i | 0 <= i < |hunks| :: ValidHunk(hunks[i])
  }

  // ----- parse undoes print, and print undoes parse

  lemma {:induction false} ParseOneLine(line: BodyLine, tail: seq<string>, oldLeft: nat, newLeft: nat)
    requires IsKind(line.kind)
    requires !line.noNewline && tail != [] ==> tail[0] != NoNewlineMarker()
    ensures ParseBody(PrintLine(line) + tail, (if IsOld(line.kind) then 1 else 0) + oldLeft,
                      (if IsNew(line.kind) then 1 else 0) + newLeft)
         == PrependLines([line], ParseBody(tail, oldLeft, newLeft))
  {
    hide NoNewlineMarker;
    var ls := PrintLine(line) + tail;
    var first := [line.kind] + line.text;
    assert ls[0] == first && first[0] == line.kind && first[1..] == line.text;
    if line.noNewline {
      assert ls[1] == NoNewlineMarker() && ls[2..] == tail;
    } else {
      assert ls[1..] == tail;
    }
  }

  lemma {:induction false} ParsePrintedBody(body: seq<BodyLine>, rest: seq<string>)
    requires ValidKinds(body)
    requires rest != [] ==> rest[0] != NoNewlineMarker()
    ensures ParseBody(PrintBody(body) + rest, OldCount(body), NewCount(body)) == Ok((body, rest))
  {
    hide *;
    if body == [] {
      ParseNothing(rest);
    } else {
      var line, more := body[0], body[1..];
      ParsePrintedBody(more, rest) by { FirstKinds(body); }
      FirstKinds(body);
      var tail := PrintBody(more) + rest;
      BodyUnfolds(body, rest);
      if more != [] { PrintBodyFirst(more, rest); }
      ParseOneLine(line, tail, OldCount(more), NewCount(more));
      assert [line] + more == body;
      PrependedLine(line, more, rest);
    }
  }

  lemma {:induction false} PrependedLine(line: BodyLine, more: seq<BodyLine>, rest: seq<string>)
    ensures PrependLines([line], Ok((more, rest))) == Ok(([line] + more, rest))
  {
  }

  lemma {:induction false} ParseNothing(rest: seq<string>)
    ensures PrintBody([]) + rest == rest && ParseBody(rest, OldCount([]), NewCount([])) == Ok(([], rest))
  {
    hide NoNewlineMarker;
  }

  lemma {:induction false} FirstKinds(body: seq<BodyLine>)
    requires body != [] && ValidKinds(body)
    ensures IsKind(body[0].kind) && ValidKinds(body[1..])
  {
  }

  /** The print and the counts of a body, from its first line on. */
  lemma {:induction false} BodyUnfolds(body: seq<BodyLine>, rest: seq<string>)
    requires body != []
    ensures PrintBody(body) + rest == PrintLine(body[0]) + (PrintBody(body[1..]) + rest)
    ensures OldCount(body) == (if IsOld(body[0].kind) then 1 else 0) + OldCount(body[1..])
    ensures NewCount(body) == (if IsNew(body[0].kind) then 1 else 0) + NewCount(body[1..])
    ensures |body| == 1 ==> PrintBody(body[1..]) + rest == rest
  {
    hide PrintLine;
  }

  lemma {:induction false} PrintBodyFirst(body: seq<BodyLine>, rest: seq<string>)
    requires ValidKinds(body) && body != []
    ensures PrintBody(body) + rest != [] && (PrintBody(body) + rest)[0] != NoNewlineMarker()
  {
    hide NoNewlineMarker;
    var first := [body[0].kind] + body[0].text;
    assert (PrintBody(body) + rest)[0] == PrintLine(body[0])[0] == first;
    assert first[0] == body[0].kind;
  }

  lemma {:induction false} PrintParsedBody(ls: seq<string>, oldLeft: nat, newLeft: nat)
    requires ParseBody(ls, oldLeft, newLeft).Ok?
    ensures var (body, rest) := ParseBody(ls, oldLeft, newLeft).value;
            ls == PrintBody(body) + rest && ValidKinds(body) && OldCount(body) == oldLeft && NewCount(body) == newLeft
  {
    hide NoNewlineMarker;
    if oldLeft == 0 && newLeft == 0 {
      assert PrintBody([]) + ls == ls;
    } else {
      var kind := ls[0][0];
      var marked := |ls| > 1 && ls[1] == NoNewlineMarker();
      var line := BodyLine(kind, ls[0][1..], marked);
      var tail := ls[if marked then 2 else 1..];
      var o, n := if IsOld(kind) then oldLeft - 1 else oldLeft, if IsNew(kind) then newLeft - 1 else newLeft;
      SplitPrintedLine(ls, line, tail);
      PrintParsedBody(tail, o, n);
      var (more, rest) := ParseBody(tail, o, n).value;
      PrintBodyCons(line, more, rest);
    }
  }

  lemma {:induction false} SplitPrintedLine(ls: seq<string>, line: BodyLine, tail: seq<string>)
    requires ls != [] && ls[0] != ""
    requires line.noNewline <==> |ls| > 1 && ls[1] == NoNewlineMarker()
    requires line.kind == ls[0][0] && line.text == ls[0][1..]
    requires tail == ls[if line.noNewline then 2 else 1..]
    ensures ls == PrintLine(line) + tail
  {
    hide NoNewlineMarker;
    assert ls[0] == [line.kind] + line.text;
  }

  lemma {:induction false} PrintBodyCons(line: BodyLine, more: seq<BodyLine>, rest: seq<string>)
    ensures PrintBody([line] + more) + rest == PrintLine(line) + (PrintBody(more) + rest)
    ensures OldCount([line] + more) == (if IsOld(line.kind) then 1 else 0) + OldCount(more)
    ensures NewCount([line] + more) == (if IsNew(line.kind) then 1 else 0) + NewCount(more)
  {
    hide NoNewlineMarker;
    assert ([line] + more)[1..] == more;
  }

  lemma {:induction false} ReadableHeaderStartsHunk(header: string)
    requires Coordinates(header).Ok?
    ensures StartsHunk(header) && header != NoNewlineMarker()
  {
    hide NoNewlineMarker;
    assert Match(HEADER, header).Some? && Match(HEADER.next, header[1..]).Some?;
    assert header[1..][0] == '@';
  }

  lemma {:induction false} PrintHunksCons(hunk: Hunk, more: seq<Hunk>, rest: seq<string>)
    ensures PrintHunks([hunk] + more) + rest == [hunk.header] + (PrintBody(hunk.lines) + (PrintHunks(more) + rest))
  {
    hide PrintBody;
    assert ([hunk] + more)[1..] == more;
  }

  /** Printed hunks are read back unchanged and completely, up to lines no hunk can absorb. */
  lemma {:induction false} ParsePrintedHunks(hunks: seq<Hunk>, rest: seq<string>)
    requires ValidHunks(hunks)
    requires rest != [] ==> rest[0] != NoNewlineMarker() && !StartsHunk(rest[0])
    ensures ParseHunks(PrintHunks(hunks) + rest) == Ok((hunks, rest))
  {
    hide Coordinates, NoNewlineMarker, ParseBody, PrintBody;
    if hunks == [] {
      assert PrintHunks(hunks) + rest == rest;
    } else {
      var hunk, more := hunks[0], hunks[1..];
      ParsePrintedHunks(more, rest);
      var tail := PrintHunks(more) + rest;
      assert [hunk] + more == hunks;
      PrintHunksCons(hunk, more, rest);
      var behind := PrintBody(hunk.lines) + tail;
      assert ([hunk.header] + behind)[1..] == behind;
      ReadableHeaderStartsHunk(hunk.header);
      if more != [] {
        assert tail[0] == more[0].header;
        ReadableHeaderStartsHunk(more[0].header);
      } else {
        assert tail == rest;
      }
      ParsePrintedBody(hunk.lines, tail);
    }
  }

  lemma {:induction false} PrintParsedHunks(ls: seq<string>)
    requires ParseHunks(ls).Ok?
    ensures var (hunks, rest) := ParseHunks(ls).value;
            && ls == PrintHunks(hunks) + rest && ValidHunks(hunks)
            && (rest != [] ==> !StartsHunk(rest[0]))
    decreases |ls|
  {
    hide Coordinates, NoNewlineMarker, ParseBody, PrintBody;
    if ls == [] || !StartsHunk(ls[0]) {
      assert PrintHunks([]) + ls == ls;
    } else {
      var c := Coordinates(ls[0]).value;
      PrintParsedBody(ls[1..], c.oldCount, c.newCount);
      var (body, behind) := ParseBody(ls[1..], c.oldCount, c.newCount).value;
      PrintParsedHunks(behind);
      var (more, rest) := ParseHunks(behind).value;
      PrintHunksCons(Hunk(ls[0], body), more, rest);
      assert ls == [ls[0]] + ls[1..];
    }
  }

  /** The parser consumes a list of lines exactly when they are the printed form of valid hunks,
      and those hunks are its result. */
  lemma {:induction false} ParseIsInverseOfPrint(ls: seq<string>, hunks: seq<Hunk>)
    ensures ParseHunks(ls) == Ok((hunks, [])) <==> ValidHunks(hunks) && ls == PrintHunks(hunks)
  {
    if ParseHunks(ls) == Ok((hunks, [])) {
      PrintParsedHunks(ls);
      assert PrintHunks(hunks) + [] == PrintHunks(hunks);
    }
    if ValidHunks(hunks) && ls == PrintHunks(hunks) {
      ParsePrintedHunks(hunks, []);
      assert PrintHunks(hunks) + [] == PrintHunks(hunks);
    }
  }

  // ----- whole patch texts

  /** What a patch text that starts with a hunk is read as. */
  function ParsePatch(diff: string): Result<Plan, PatchError> {
    match Lines(diff)
    case Err(e) => Err(e)
    case Ok(ls) =>
      match ParseHunks(ls)
      case Err(e) => Err(e)
      case Ok((hunks, rest)) => if rest != [] then Err(InvalidPatch) else Ok(Diff(hunks, Style(diff)))
  }

  method ParsePatchInput(diff: string) returns (r: Result<Plan, PatchError>)
    requires StartsHunk(diff)
    ensures r == ParsePatch(diff)
  {
    var ls := Lines(diff);
    if ls.Err? { return Err(ls.error); }
    var parsed := ParseHunksAt(ls.value, 0);
    assert ls.value[0..] == ls.value;
    if parsed.Err? { return Err(parsed.error); }
    if parsed.value.1 != |ls.value| { return Err(InvalidPatch); }
    return Ok(Diff(parsed.value.0, if HasCrlf(diff) then CRLF else LF));
  }

  predicate CleanHunk(hunk: Hunk) {
    NoBreaks(hunk.header) && forall i | 0 <= i < |hunk.lines| :: NoBreaks(hunk.lines[i].text)
  }

  predicate CleanHunks(hunks: seq<Hunk>) {
    forall i | 0 <= i < |hunks| :: CleanHunk(hunks[i])
  }

  function PrintPatch(hunks: seq<Hunk>, newline: string): string {
    Expand(Join(PrintHunks(hunks)) + "\n", newline)
  }

  predicate AllClean(lines: seq<string>) { forall l | l in lines :: NoBreaks(l) }

  lemma {:induction false} AllCleanConcat(a: seq<string>, b: seq<string>)
    ensures AllClean(a + b) <==> AllClean(a) && AllClean(b)
  {
    hide NoBreaks;
    if AllClean(a + b) {
      forall l | l in a ensures NoBreaks(l) { assert l in a + b; }
      forall l | l in b ensures NoBreaks(l) { assert l in a + b; }
    }
  }

  predicate CleanLine(line: BodyLine) { NoBreaks([line.kind]) && NoBreaks(line.text) }

  lemma {:induction false} PrintedLineIsClean(line: BodyLine)
    ensures AllClean(PrintLine(line)) <==> CleanLine(line)
  {
    hide *;
    var printed := [line.kind] + line.text;
    PrintLineIs(line);
    NoBreaksConcat([line.kind], line.text);
    MarkerIsClean();
    CleanLineIs(line);
    AllCleanConcat([printed], if line.noNewline then [NoNewlineMarker()] else []);
    AllCleanOne(printed);
    AllCleanOne(NoNewlineMarker());
    NothingIsClean();
    assert [printed] + [] == [printed];
  }

  lemma {:induction false} PrintLineIs(line: BodyLine)
    ensures PrintLine(line) == [[line.kind] + line.text] + (if line.noNewline then [NoNewlineMarker()] else [])
  {
    hide NoNewlineMarker;
  }

  lemma {:induction false} CleanLineIs(line: BodyLine)
    ensures CleanLine(line) <==> NoBreaks([line.kind]) && NoBreaks(line.text)
  {
    hide NoBreaks;
  }

  lemma {:induction false} NoBreaksConcat(a: string, b: string)
    ensures NoBreaks(a + b) <==> NoBreaks(a) && NoBreaks(b)
  {
  }

  lemma {:induction false} MarkerIsClean()
    ensures NoBreaks(NoNewlineMarker())
  {
  }

  lemma {:induction false} AllCleanOne(line: string)
    ensures AllClean([line]) <==> NoBreaks(line)
  {
    hide NoBreaks;
    assert line in [line];
  }

  lemma {:induction false} NothingIsClean()
    ensures AllClean([])
  {
  }

  lemma {:induction false} CleanBodyHead(body: seq<BodyLine>)
    requires body != []
    ensures (forall i | 0 <= i < |body| :: CleanLine(body[i]))
       <==> CleanLine(body[0]) && forall i | 0 <= i < |body[1..]| :: CleanLine(body[1..][i])
  {
    hide CleanLine;
    assert forall i | 1 <= i < |body| :: body[i] == body[1..][i - 1];
  }

  lemma {:induction false} PrintedBodyIsClean(body: seq<BodyLine>)
    ensures AllClean(PrintBody(body)) <==> forall i | 0 <= i < |body| :: CleanLine(body[i])
  {
    hide CleanLine, PrintLine, NoBreaks;
    if body != [] {
      PrintedBodyIsClean(body[1..]);
      PrintedLineIsClean(body[0]);
      CleanBodyHead(body);
      hide AllClean;
      AllCleanConcat(PrintLine(body[0]), PrintBody(body[1..]));
    }
  }

  lemma {:induction false} PrintedHunkIsClean(hunk: Hunk)
    requires ValidKinds(hunk.lines)
    ensures AllClean(PrintHunk(hunk)) <==> CleanHunk(hunk)
  {
    PrintedBodyIsClean(hunk.lines);
    hide PrintBody, NoBreaks;
    AllCleanConcat([hunk.header], PrintBody(hunk.lines));
    forall i | 0 <= i < |hunk.lines| ensures CleanLine(hunk.lines[i]) <==> NoBreaks(hunk.lines[i].text) {
      assert IsKind(hunk.lines[i].kind);
      KindIsClean(hunk.lines[i].kind);
    }
  }

  lemma {:induction false} KindIsClean(kind: char)
    requires IsKind(kind)
    ensures NoBreaks([kind])
  {
  }

  lemma {:induction false} CleanHunksHead(hunks: seq<Hunk>)
    requires hunks != []
    ensures CleanHunks(hunks) <==> CleanHunk(hunks[0]) && CleanHunks(hunks[1..])
    ensures ValidHunks(hunks) ==> ValidKinds(hunks[0].lines) && ValidHunks(hunks[1..])
  {
    hide CleanHunk, Coordinates, ValidKinds;
    assert forall i | 1 <= i < |hunks| :: hunks[i] == hunks[1..][i - 1];
  }

  lemma {:induction false} PrintedHunksAreClean(hunks: seq<Hunk>)
    requires ValidHunks(hunks)
    ensures (forall l | l in PrintHunks(hunks) :: NoBreaks(l)) <==> CleanHunks(hunks)
  {
    hide NoBreaks, CleanHunk, CleanHunks, ValidHunks, PrintHunk, ValidKinds;
    PrintedAreAllClean(hunks);
    hide PrintHunks;
  }

  lemma {:induction false} PrintedAreAllClean(hunks: seq<Hunk>)
    requires ValidHunks(hunks)
    ensures AllClean(PrintHunks(hunks)) <==> CleanHunks(hunks)
  {
    if hunks == [] {
    } else {
      hide NoBreaks, CleanHunk, CleanHunks, ValidHunks, PrintHunk, ValidKinds;
      CleanHunksHead(hunks);
      PrintedAreAllClean(hunks[1..]);
      PrintedHunkIsClean(hunks[0]);
      hide AllClean;
      AllCleanConcat(PrintHunk(hunks[0]), PrintHunks(hunks[1..]));
    }
  }

  /** A printed patch text is read back as the same hunks, in the newline style it was printed in. */
  lemma {:induction false} ParsePrintedPatch(hunks: seq<Hunk>, newline: string)
    requires hunks != [] && ValidHunks(hunks) && CleanHunks(hunks)
    requires newline == LF || newline == CRLF
    ensures ParsePatch(PrintPatch(hunks, newline)) == Ok(Diff(hunks, newline))
  {
    PrintedHunksAreClean(hunks);
    JoinedLinesReadBack(PrintHunks(hunks), newline);
    ParseIsInverseOfPrint(PrintHunks(hunks), hunks);
  }

  /** A plan that was read from text. */
  ghost predicate Parsed(plan: Plan) {
    plan.Diff? && ValidHunks(plan.hunks) && CleanHunks(plan.hunks) && (plan.newline == LF || plan.newline == CRLF)
  }

  /** Whatever the parser returns carries exactly its declared counts, in lines without breaks. */
  lemma {:induction false} ParsedPlansAreValid(diff: string)
    requires ParsePatch(diff).Ok?
    ensures Parsed(ParsePatch(diff).value)
  {
    var x := CollapseCrlf(diff);
    var ls := BareLines(x);
    var hunks := ParseHunks(ls).value.0;
    ParseIsInverseOfPrint(ls, hunks);
    CollapseExpand(diff);
    BareAndKept(x);
    PrintedHunksAreClean(hunks);
  }
}
