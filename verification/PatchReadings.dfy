/** How a wrapped patch is read, compared with the patch alone. */
module PatchReadings {
  import opened Results
  import opened Sequences
  import opened PatchText
  import opened PatchHunks
  import opened PatchOperations
  import opened PatchFences
  import opened PatchHeredocs
  import opened PatchUnified
  import opened PatchEnvelope

  // ----- how the patch is read

  lemma {:induction false} CollapseKeepsPrefix(text: string, prefix: string)
    requires '\n' !in prefix && '\r' !in prefix
    ensures StartsWith(CollapseCrlf(text), prefix) <==> StartsWith(text, prefix)
    decreases |prefix|
  {
    if prefix != "" && text != "" {
      assert prefix == [prefix[0]] + prefix[1..] && prefix[0] in prefix;
      if |text| >= 2 && text[0] == '\r' && text[1] == '\n' {
        StartsWithFirst(text, prefix);
        StartsWithFirst(CollapseCrlf(text), prefix);
      } else {
        StartsWithFirst(text, prefix);
        StartsWithFirst(CollapseCrlf(text), prefix);
        assert CollapseCrlf(text) == [text[0]] + CollapseCrlf(text[1..]);
        assert ([text[0]] + CollapseCrlf(text[1..]))[1..] == CollapseCrlf(text[1..]);
        CollapseKeepsPrefix(text[1..], prefix[1..]);
      }
    }
  }

  lemma {:induction false} StartsWithFirst(text: string, prefix: string)
    requires prefix != ""
    ensures StartsWith(text, prefix) <==> text != "" && text[0] == prefix[0] && StartsWith(text[1..], prefix[1..])
  {
    if text != "" && |prefix| <= |text| {
      assert text[..|prefix|] == [text[0]] + text[1..][..|prefix| - 1];
      assert prefix == [prefix[0]] + prefix[1..];
    }
  }

  lemma {:induction false} CollapseKeepsUnified(body: string)
    ensures IsUnified(CollapseCrlf(body)) <==> IsUnified(body)
  {
    CollapseKeepsPrefix(body, "--- ");
    CollapseKeepsPrefix(body, "diff --git ");
    hide CollapseCrlf, StartsWith;
  }

  lemma {:induction false} ReadableCollapses(body: string)
    requires Readable(body)
    ensures Readable(CollapseCrlf(body)) && Lines(CollapseCrlf(body)) == Lines(body)
  {
    CollapseExpand(body);
    CleanIsCollapsed(CollapseCrlf(body));
    hide BareLines, DropCrlf;
  }

  // ----- refusals

  lemma {:induction false} BodyRefusals(ls: seq<string>, oldLeft: nat, newLeft: nat)
    ensures ParseBody(ls, oldLeft, newLeft).Err? ==> ParseBody(ls, oldLeft, newLeft).error == InvalidPatch
    decreases |ls|
  {
    hide NoNewlineMarker;
    assert ls[0..] == ls;
    ParseBodyUnfolds(ls, 0, oldLeft, newLeft);
    hide ParseBody;
    if (oldLeft > 0 || newLeft > 0) && ls != [] && ls[0] != "" && IsKind(ls[0][0])
       && !(IsOld(ls[0][0]) && oldLeft == 0) && !(IsNew(ls[0][0]) && newLeft == 0) {
      var marked := 1 < |ls| && ls[1] == NoNewlineMarker();
      BodyRefusals(ls[if marked then 2 else 1..], if IsOld(ls[0][0]) then oldLeft - 1 else oldLeft,
                   if IsNew(ls[0][0]) then newLeft - 1 else newLeft);
    }
  }

  lemma {:induction false} HunkRefusals(ls: seq<string>)
    ensures ParseHunks(ls).Err? ==> ParseHunks(ls).error == InvalidPatch
    decreases |ls|
  {
    if ls != [] && StartsHunk(ls[0]) {
      HeaderRefusals(ls[0]);
      hide PatchHeader.Coordinates, ParseBody;
      if PatchHeader.Coordinates(ls[0]).Ok? {
        var c := PatchHeader.Coordinates(ls[0]).value;
        BodyRefusals(ls[1..], c.oldCount, c.newCount);
        if ParseBody(ls[1..], c.oldCount, c.newCount).Ok? {
          HunkRefusals(ParseBody(ls[1..], c.oldCount, c.newCount).value.1);
        }
      }
    }
  }

  lemma {:induction false} HeaderRefusals(header: string)
    ensures PatchHeader.Coordinates(header).Err? ==> PatchHeader.Coordinates(header).error == InvalidPatch
  {
  }

  lemma {:induction false} FileRefusals(lines: seq<string>, seen: set<string>, fold: string -> string, newline: string)
    ensures Files(lines, seen, fold, newline).Err? ==> Files(lines, seen, fold, newline).error == InvalidPatch
    decreases |lines|
  {
    hide *;
    if lines == [] {
      NothingIsProper(seen, fold, newline);
    } else {
      FilesStep(lines, seen, fold, newline);
      PreambleRefusals(lines);
      if Headers(lines).Ok? {
        var (path, action, body) := Headers(lines).value;
        HunkRefusals(body);
        if ParseHunks(body).Ok? {
          var (hunks, rest) := ParseHunks(body).value;
          HunksConsume(body);
          FileRefusals(rest, seen + {fold(path)}, fold, newline);
          BehindRefuses(FilePatch(path, action, Diff(hunks, newline)), Files(rest, seen + {fold(path)}, fold, newline));
        }
      }
    }
  }

  lemma {:induction false} BehindRefuses(file: FilePatch, r: Result<seq<FilePatch>, PatchError>)
    ensures r.Err? <==> Behind([file], r).Err?
    ensures r.Err? ==> Behind([file], r) == r
  {
  }

  lemma {:induction false} PreambleRefusals(lines: seq<string>)
    ensures Headers(lines).Err? ==> Headers(lines).error == InvalidPatch
  {
    SkippingRefuses(lines, Unstated);
    hide Preamble, StartsWith, SafePath;
  }

  lemma {:induction false} SkippingRefuses(lines: seq<string>, mode: Mode)
    ensures Preamble(lines, mode).Err? ==> Preamble(lines, mode).error == InvalidPatch
  {
    hide StartsWith;
    if lines != [] {
      SkippingRefuses(lines[1..], mode);
      SkippingRefuses(lines[1..], Created);
      SkippingRefuses(lines[1..], Deleted);
    }
  }

  /** The newline style decides nothing about which files are accepted. */
  lemma {:induction false} StyleRefusesNothing(lines: seq<string>, seen: set<string>, fold: string -> string, a: string,
                                               b: string)
    ensures Files(lines, seen, fold, a).Ok? <==> Files(lines, seen, fold, b).Ok?
    decreases |lines|
  {
    hide *;
    if lines == [] {
      NothingIsProper(seen, fold, a);
      NothingIsProper(seen, fold, b);
    } else {
      FilesStep(lines, seen, fold, a);
      FilesStep(lines, seen, fold, b);
      if Headers(lines).Ok? && ParseHunks(Headers(lines).value.2).Ok? {
        var (path, action, body) := Headers(lines).value;
        var (hunks, rest) := ParseHunks(body).value;
        HunksConsume(body);
        StyleRefusesNothing(rest, seen + {fold(path)}, fold, a, b);
        BehindRefuses(FilePatch(path, action, Diff(hunks, a)), Files(rest, seen + {fold(path)}, fold, a));
        BehindRefuses(FilePatch(path, action, Diff(hunks, b)), Files(rest, seen + {fold(path)}, fold, b));
      }
    }
  }

  lemma {:induction false} EntryRefusals(inner: seq<string>, seen: set<string>, fold: string -> string)
    ensures Entries(inner, seen, fold) != Err(Unreadable)
    decreases |inner|
  {
    hide ReadHeader, Slashed, AllPlus, WithoutFirst;
    if inner != [] && ReadHeader(inner[0]).Some? {
      var header := ReadHeader(inner[0]).value;
      var k := ContentRun(inner[1..]);
      EntryRefusals(inner[1..][k..], seen + {fold(Slashed(header.1))}, fold);
    }
  }

  // ----- both readings

  /** An envelope is read as before unless collapsing its newlines is what makes it readable. */
  lemma {:induction false} EnvelopeCollapsed(body: string, fold: string -> string)
    requires !IsUnified(body)
    ensures ParseEnvelope(CollapseCrlf(body), fold) == ParseEnvelope(body, fold)
            <==> Readable(body) || !Readable(CollapseCrlf(body))
  {
    CollapseKeepsUnified(body);
    if Readable(body) { ReadableCollapses(body); }
    if Readable(CollapseCrlf(body)) { NotUnreadable(CollapseCrlf(body), fold); }
    hide IsUnified, Readable, BareLines, CollapseCrlf, IsEnvelope, Inner, Entries, OpsOf;
  }

  lemma {:induction false} NotUnreadable(body: string, fold: string -> string)
    requires !IsUnified(body) && Readable(body)
    ensures ParseEnvelope(body, fold) != Err(Unreadable)
  {
    hide IsUnified, Readable, BareLines, CollapseCrlf, Entries, OpsOf;
    if IsEnvelope(Lines(body).value) { EntryRefusals(Inner(Lines(body).value), {}, fold); }
  }

  /** A unified diff is read as before unless it is accepted in one style and had another. */
  lemma {:induction false} DiffCollapsed(body: string, fold: string -> string)
    requires IsUnified(body)
    ensures ParseEnvelope(CollapseCrlf(body), fold) == ParseEnvelope(body, fold)
            <==> !HasCrlf(body) || UnifiedFiles(CollapseCrlf(body), fold).Err?
  {
    hide *;
    CollapseKeepsUnified(body);
    DiffIs(body, fold);
    DiffIs(CollapseCrlf(body), fold);
    CollapseChanges(body);
    DiffRefusals(body, fold);
    DiffRefusals(CollapseCrlf(body), fold);
    if HasCrlf(body) { StylesDiffer(body, fold); }
  }

  lemma {:induction false} DiffIs(body: string, fold: string -> string)
    requires IsUnified(body)
    ensures ParseEnvelope(body, fold) == DiffOps(UnifiedFiles(body, fold)) && body != ""
    ensures UnifiedFiles(body, fold).Err?
            ==> DiffOps(UnifiedFiles(body, fold)) == Err(RefusedDiff(UnifiedFiles(body, fold).error))
    ensures UnifiedFiles(body, fold).Ok?
            ==> DiffOps(UnifiedFiles(body, fold)) == Ok(FileOpsOf(UnifiedFiles(body, fold).value))
  {
    hide UnifiedFiles, FileOpsOf;
  }

  lemma {:induction false} DiffRefusals(body: string, fold: string -> string)
    ensures UnifiedFiles(body, fold).Err? ==> UnifiedFiles(body, fold).error == InvalidPatch
  {
    if Readable(body) { FileRefusals(Lines(body).value, {}, fold, Style(body)); }
    hide Files, Readable, BareLines, CollapseCrlf;
  }

  lemma {:induction false} StylesDiffer(body: string, fold: string -> string)
    requires HasCrlf(body) && body != "" && CollapseCrlf(body) != ""
    ensures UnifiedFiles(body, fold).Ok? ==> UnifiedFiles(CollapseCrlf(body), fold).Ok?
    ensures UnifiedFiles(body, fold).Ok? ==>
              FileOpsOf(UnifiedFiles(CollapseCrlf(body), fold).value) != FileOpsOf(UnifiedFiles(body, fold).value)
  {
    if UnifiedFiles(body, fold).Ok? {
      LinesOfReadable(body);
      ReadableCollapses(body);
      CleanIsCollapsed(CollapseCrlf(body));
      var lines := Lines(body).value;
      UnifiedIs(body, fold);
      UnifiedIs(CollapseCrlf(body), fold);
      hide *;
      StyleRefusesNothing(lines, {}, fold, CRLF, LF);
      FirstNewline(lines, fold, CRLF);
      FirstNewline(lines, fold, LF);
      StylesAre();
    }
  }

  lemma {:induction false} StylesAre()
    ensures CRLF != LF
  {
  }

  lemma {:induction false} LinesOfReadable(body: string)
    requires Lines(body).Ok? && body != ""
    ensures Readable(body) && Lines(body).value != [] && '\r' !in CollapseCrlf(body)
  {
    CollapseEnds(body);
    BareAndKept(CollapseCrlf(body));
    ReadableIsRendered(body);
    hide Split, CollapseCrlf, DropCrlf;
  }

  lemma {:induction false} UnifiedIs(body: string, fold: string -> string)
    requires body != "" && Readable(body)
    ensures UnifiedFiles(body, fold) == Files(Lines(body).value, {}, fold, if HasCrlf(body) then CRLF else LF)
  {
    hide Readable, Files, BareLines, CollapseCrlf;
  }

  lemma {:induction false} FirstNewline(lines: seq<string>, fold: string -> string, newline: string)
    requires lines != [] && Files(lines, {}, fold, newline).Ok?
    ensures var ops := FileOpsOf(Files(lines, {}, fold, newline).value);
            ops != [] && ops[0].plan.Some? && ops[0].plan.value.Diff? && ops[0].plan.value.newline == newline
  {
    hide Files, SafePath, ValidHunks;
    AcceptedFilesAreProper(lines, {}, fold, newline);
  }

  // ----- what wrapping changes

  /** A patch between heredoc lines is read as the patch alone exactly as long as newlines do not decide: an
      envelope unless it is unreadable and becomes readable, a unified diff unless it has CRLF newlines and
      is accepted without them. */
  lemma {:induction false} HeredocReading(chars: Chars, lead: string, tag: string, body: string, left: string,
                                          word: string, right: string, trail: string, fold: string -> string)
    requires Unicode(chars) && '\n' !in tag && ClosingLine(chars, left, word, right)
    requires All(lead, IsBreak()) && All(trail, IsBreak()) && Trimmed(body)
    requires !StartsWith(body, FENCE) && !StartsWith(body, HEREDOC)
    ensures var text := lead + (HEREDOC + tag + "\n" + body + "\n" + (left + word + right)) + trail;
            ParsePatchText(chars, text, fold) == ParsePatchText(chars, body, fold)
            <==> if IsUnified(body) then !HasCrlf(body) || UnifiedFiles(CollapseCrlf(body), fold).Err?
                 else Readable(body) || !Readable(CollapseCrlf(body))
  {
    hide *;
    HeredocsCollapse(chars, lead, tag, body, left, word, right, trail);
    PlainTextIsKept(chars, body);
    ReadingIs(chars, lead + (HEREDOC + tag + "\n" + body + "\n" + (left + word + right)) + trail, fold);
    ReadingIs(chars, body, fold);
    if IsUnified(body) { DiffCollapsed(body, fold); } else { EnvelopeCollapsed(body, fold); }
  }

  lemma {:induction false} ReadingIs(chars: Chars, text: string, fold: string -> string)
    ensures ParsePatchText(chars, text, fold) == ParseEnvelope(Stripped(chars, text), fold)
  {
    hide Stripped, ParseEnvelope;
  }

  /** A patch between fences is read as the patch alone as long as no line of it closes the fence and it
      does not begin with a blank line. */
  lemma {:induction false} FencedReading(chars: Chars, lead: string, tag: string, gap: string, body: string,
                                         end: string,
                                         rest: string, fold: string -> string)
    requires Unicode(chars) && Trimmed(body) && All(lead, IsBreak()) && All(tag, chars.isWord)
    requires All(gap, chars.isSpace) && All(rest, chars.isSpace) && (end == "" || end == "\r")
    requires !StartsWith(body, FENCE) && !StartsWith(body, HEREDOC)
    requires !HasFenceLine(chars, body) && !LeadsBlank(chars, body)
    ensures ParsePatchText(chars, lead + (FENCE + tag + gap + "\n" + (body + end) + "\n" + FENCE + rest), fold)
         == ParsePatchText(chars, body, fold)
  {
    hide *;
    FencesAreTransparent(chars, lead, tag, gap, body, end, rest);
    PlainTextIsKept(chars, body);
    ReadingIs(chars, lead + (FENCE + tag + gap + "\n" + (body + end) + "\n" + FENCE + rest), fold);
    ReadingIs(chars, body, fold);
  }

  // ----- inputs on which wrapping changes the reading

  function Mixed(p: string, q: string, r: string): string { p + "\r\n" + q + "\n" + r }

  lemma {:induction false} PlainPrefix(p: string, rest: string)
    requires NoBreaks(p)
    ensures DropCrlf(p + rest) == p + DropCrlf(rest) && (HasCrlf(p + rest) <==> HasCrlf(rest))
  {
    if p == "" {
      assert p + rest == rest;
    } else {
      assert p + rest == [p[0]] + (p[1..] + rest) && p[0] in p;
      CharAt(p[0], p[1..] + rest);
      PlainPrefix(p[1..], rest);
      hide DropCrlf, HasCrlf;
      assert p == [p[0]] + p[1..];
    }
  }

  /** A text with both newline styles is refused, and readable in one style. */
  lemma {:induction false} MixedIsUnreadable(p: string, q: string, r: string)
    requires NoBreaks(p) && NoBreaks(q) && NoBreaks(r)
    ensures !Readable(Mixed(p, q, r)) && Readable(CollapseCrlf(Mixed(p, q, r)))
  {
    hide *;
    var tail := q + "\n" + r;
    assert p + "\r\n" + q + "\n" + r == p + ("\r\n" + tail) == p + "\r" + "\n" + tail;
    assert tail == q + (['\n'] + r);
    MixedIs(p, q, r);
    PlainPrefix(p, "\r\n" + tail);
    PairAt(tail);
    PlainPrefix(q, ['\n'] + r);
    CharAt('\n', r);
    MixedCollapses(p, q, r);
    RefusesMixed(Mixed(p, q, r));
    CleanIsCollapsed(p + "\n" + q + "\n" + r);
    AcceptsClean(p + "\n" + q + "\n" + r);
  }

  lemma {:induction false} MixedIs(p: string, q: string, r: string)
    ensures Mixed(p, q, r) == p + "\r\n" + q + "\n" + r
  {
  }

  lemma {:induction false} MixedCollapses(p: string, q: string, r: string)
    requires NoBreaks(p) && NoBreaks(q) && NoBreaks(r)
    ensures CollapseCrlf(Mixed(p, q, r)) == p + "\n" + q + "\n" + r
    ensures '\r' !in p + "\n" + q + "\n" + r && '\0' !in p + "\n" + q + "\n" + r
  {
    hide *;
    MixedIs(p, q, r);
    assert p + "\r\n" + q + "\n" + r == (p + "\r") + "\n" + (q + "\n" + r);
    CollapseLine(p + "\r", q + "\n" + r);
    CollapseLine(q, r);
    LineEnds(p);
    LineEnds(q);
    LineEnds(r);
    OneLineIsKept(p);
    OneLineIsKept(q);
    OneLineIsKept(r);
    assert p + "\n" + q + "\n" + r == p + "\n" + (q + "\n" + r);
  }

  lemma {:induction false} LineEnds(line: string)
    requires NoBreaks(line)
    ensures WithoutReturn(line + "\r") == line && WithoutReturn(line) == line
    ensures '\n' !in line && '\r' !in line && '\0' !in line
  {
    if line != "" { assert line[|line| - 1] in line; }
  }

  lemma {:induction false} RefusesMixed(text: string)
    requires HasCrlf(text) && '\n' in DropCrlf(text)
    ensures !Readable(text)
  {
    hide CollapseCrlf;
  }

  lemma {:induction false} AcceptsClean(text: string)
    requires '\r' !in text && '\0' !in text && CollapseCrlf(text) == text && !HasCrlf(text)
    ensures Readable(text)
  {
    hide CollapseCrlf, DropCrlf, HasCrlf;
  }

  /** A body of mixed newlines is unreadable alone and readable between heredoc lines. */
  lemma {:induction false} MixedNewlinesBecomeReadable(chars: Chars, p: string, q: string, r: string,
                                                       fold: string -> string)
    requires Unicode(chars) && NoBreaks(p) && NoBreaks(q) && NoBreaks(r) && Trimmed(Mixed(p, q, r))
    requires !StartsWith(Mixed(p, q, r), FENCE) && !StartsWith(Mixed(p, q, r), HEREDOC) && !IsUnified(Mixed(p, q, r))
    ensures ParsePatchText(chars, Mixed(p, q, r), fold) == Err(Unreadable)
    ensures ParsePatchText(chars, HEREDOC + "EOF" + "\n" + Mixed(p, q, r) + "\n" + "EOF", fold)
         != ParsePatchText(chars, Mixed(p, q, r), fold)
  {
    hide *;
    var body := Mixed(p, q, r);
    MixedIsUnreadable(p, q, r);
    EndWordCloses(chars);
    NoBreaksAtAll();
    EndIsOneLine();
    HeredocReading(chars, "", "EOF", body, "", "EOF", "", "", fold);
    PlainTextIsKept(chars, body);
    ReadingIs(chars, body, fold);
    UnreadableIs(body, fold);
    assert "" + "EOF" + "" == "EOF";
    assert "" + (HEREDOC + "EOF" + "\n" + body + "\n" + "EOF") + "" == HEREDOC + "EOF" + "\n" + body + "\n" + "EOF";
  }

  lemma {:induction false} EndIsOneLine()
    ensures '\n' !in "EOF"
  {
  }

  /** Such a body: three lines, the first of which ends in CRLF. */
  lemma {:induction false} MixedBody()
    ensures var body := Mixed("a", "b", "c");
            Trimmed(body) && !StartsWith(body, FENCE) && !StartsWith(body, HEREDOC) && !IsUnified(body)
    ensures NoBreaks("a") && NoBreaks("b") && NoBreaks("c")
  {
    var body := Mixed("a", "b", "c");
    assert body[0] == 'a' && body[|body| - 1] == 'c';
    hide StartsWith, Mixed;
    if StartsWith(body, FENCE) { FirstIs(body, FENCE); }
    if StartsWith(body, HEREDOC) { FirstIs(body, HEREDOC); }
    if StartsWith(body, "--- ") { FirstIs(body, "--- "); }
    if StartsWith(body, "diff --git ") { FirstIs(body, "diff --git "); }
  }

  lemma {:induction false} EndWordCloses(chars: Chars)
    ensures ClosingLine(chars, "", "EOF", "")
  {
  }

  lemma {:induction false} NoBreaksAtAll()
    ensures All("", IsBreak())
  {
  }

  lemma {:induction false} UnreadableIs(body: string, fold: string -> string)
    requires !IsUnified(body) && !Readable(body)
    ensures ParseEnvelope(body, fold) == Err(Unreadable)
  {
    hide Readable, IsUnified;
  }

  /** A blank line in front of a patch gets it refused, but goes unnoticed behind an opening fence. */
  lemma {:induction false} BlankLineIsLost(chars: Chars, patch: string, fold: string -> string)
    requires Unicode(chars) && chars.isSpace(' ') && Trimmed(patch) && !chars.isSpace(patch[0])
    requires !HasFenceLine(chars, patch)
    ensures ParsePatchText(chars, " \n" + patch, fold).Err?
    ensures ParsePatchText(chars, FENCE + "\n" + (" \n" + patch) + "\n" + FENCE, fold) == ParseEnvelope(patch, fold)
  {
    hide *;
    var body := " \n" + patch;
    BlankStarts(patch);
    PlainTextIsKept(chars, body);
    ReadingIs(chars, body, fold);
    BlankIsRefused(patch, fold);
    NoBreaksAtAll();
    NothingAtAll(chars);
    SpaceLine(chars);
    TrimmedIsText(patch);
    VisibleStart(chars, patch);
    WholeIsRead(chars, patch);
    TrimKeeps(patch);
    assert patch[0..|patch|] == patch;
    var text := FENCE + "\n" + body + "\n" + FENCE;
    ReadingIs(chars, text, fold);
    assert text == "" + (FENCE + "" + "\n " + "\n" + patch + "\n" + FENCE + "");
    FencedBlockIs(chars, "", "", "\n ", patch, "");
  }

  lemma {:induction false} TrimmedIsText(text: string)
    requires Trimmed(text)
    ensures text != ""
  {
  }

  lemma {:induction false} SpaceLine(chars: Chars)
    requires Unicode(chars) && chars.isSpace(' ')
    ensures All(" \n", chars.isSpace) && All("\n ", chars.isSpace)
  {
  }

  lemma {:induction false} NothingAtAll(chars: Chars)
    ensures All("", chars.isSpace) && All("", chars.isWord)
  {
  }

  lemma {:induction false} VisibleStart(chars: Chars, text: string)
    requires text != "" && !chars.isSpace(text[0])
    ensures !LeadsBlank(chars, text)
  {
  }

  lemma {:induction false} BlankStarts(patch: string)
    requires Trimmed(patch)
    ensures var body := " \n" + patch;
            Trimmed(body) && !StartsWith(body, FENCE) && !StartsWith(body, HEREDOC) && !IsUnified(body)
  {
    var body := " \n" + patch;
    if StartsWith(body, FENCE) { FirstIs(body, FENCE); }
    if StartsWith(body, HEREDOC) { FirstIs(body, HEREDOC); }
    if StartsWith(body, "--- ") { FirstIs(body, "--- "); }
    if StartsWith(body, "diff --git ") { FirstIs(body, "diff --git "); }
  }

  lemma {:induction false} BlankIsRefused(patch: string, fold: string -> string)
    requires !IsUnified(" \n" + patch)
    ensures ParseEnvelope(" \n" + patch, fold).Err?
  {
    hide *;
    var body := " \n" + patch;
    assert body == " " + "\n" + patch;
    CollapseLine(" ", patch);
    SpaceIsOneLine();
    OneLineIsKept(" ");
    SplitAt(" ", CollapseCrlf(patch));
    FirstBareLine(CollapseCrlf(body), " ");
    NoEnvelope(body, fold);
  }

  lemma {:induction false} SpaceIsOneLine()
    ensures WithoutReturn(" ") == " " && '\n' !in " "
  {
  }

  lemma {:induction false} FirstBareLine(text: string, first: string)
    requires |Split(text)| >= 2 && Split(text)[0] == first
    ensures BareLines(text) == [] || BareLines(text)[0] == first
  {
    hide Split;
  }

  lemma {:induction false} NoEnvelope(body: string, fold: string -> string)
    requires !IsUnified(body) && (BareLines(CollapseCrlf(body)) == [] || BareLines(CollapseCrlf(body))[0] == " ")
    ensures ParseEnvelope(body, fold).Err?
  {
    hide CollapseCrlf, Readable, IsUnified, Entries, BareLines, OpsOf;
    assert |BEGIN_PATCH| > 1;
  }

  /** A body with a line that closes the fence is read up to that line. */
  lemma {:induction false} ClosingLineCuts(chars: Chars)
    requires Unicode(chars) && !chars.isSpace('a')
    ensures Stripped(chars, FENCE + "\n" + "a\n```\nb" + "\n" + FENCE) == "a"
  {
    hide *;
    var body := "a\n```\nb";
    NoBreaksAtAll();
    NothingAtAll(chars);
    FencedBlockIs(chars, "", "", "", body, "");
    VisibleStart(chars, body);
    WholeIsRead(chars, body);
    ClosesSecond(chars);
    assert body[0..1] == "a";
    LetterStays();
    assert "" + (FENCE + "" + "" + "\n" + body + "\n" + FENCE + "") == FENCE + "\n" + body + "\n" + FENCE;
  }

  lemma {:induction false} ClosesSecond(chars: Chars)
    ensures FenceEnd(chars, "a\n```\nb", 0) == 1
  {
    var body := "a\n```\nb";
    var cut := "\n" + FENCE;
    assert body == "a" + (cut + "\nb");
    assert body[1..] == cut + "\nb";
    assert (cut + "\nb")[..|cut|] == cut && (cut + "\nb")[|cut|..] == "\nb";
    assert ClosesAt(chars, body, 1);
    assert body[0] == 'a';
    hide BlankToEnd;
    if ClosesAt(chars, body, 0) { ClosesMeans(chars, body, 0); }
    hide ClosesAt;
  }

  lemma {:induction false} LetterStays()
    ensures Trim("a", IsBreak()) == "a"
  {
    TrimKeeps("a");
  }
}
