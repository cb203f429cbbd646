/** Laws of patch application: the splice is the alignment of two files, patches invert,
    results keep their newline style, and the synthesised plans do what they are for. */
module PatchLaws {
  import opened Results
  import opened PatchText
  import opened PatchHeader
  import opened PatchHunks
  import opened PatchApply
  import opened Sequences

  // ----- a symmetric reference: how two files line up along the hunks

  /** `a` from `ca` and `b` from `cb` agree outside the hunks, and each hunk sits at its announced
      coordinates in both: its old block in `a`, its new block in `b`. */
  predicate Aligned(a: seq<string>, ca: nat, b: seq<string>, cb: nat, hunks: seq<Hunk>)
    decreases |hunks|
  {
    if hunks == [] then ca <= |a| && cb <= |b| && a[ca..] == b[cb..]
    else
      && Coordinates(hunks[0].header).Ok?
      && var c := Coordinates(hunks[0].header).value;
      && ca <= c.start && c.start + c.oldCount <= |a|
      && cb <= c.newStart && c.newStart + c.newCount <= |b|
      && a[ca..c.start] == b[cb..c.newStart]
      && a[c.start..c.start + c.oldCount] == Block(Old, hunks[0].lines)
      && b[c.newStart..c.newStart + c.newCount] == Block(New, hunks[0].lines)
      && Aligned(a, c.start + c.oldCount, b, c.newStart + c.newCount, hunks[1..])
  }

  lemma {:induction false} PrefixIsSlice(block: seq<string>, a: seq<string>, from: nat, count: nat)
    requires from + count <= |a|
    ensures (block <= a[from..] && |block| == count) <==> a[from..from + count] == block
  {
    if block <= a[from..] && |block| == count {
      assert a[from..][..count] == a[from..from + count];
    }
    if a[from..from + count] == block {
      assert a[from..][..count] == block;
    }
  }

  lemma {:induction false} SplitAgreement(tail: seq<string>, gap: seq<string>, block: seq<string>, rest: seq<string>)
    ensures tail == gap + block + rest <==>
            |gap| + |block| <= |tail| && tail[..|gap|] == gap
            && tail[|gap|..|gap| + |block|] == block && tail[|gap| + |block|..] == rest
  {
    if |gap| + |block| <= |tail| {
      assert tail == tail[..|gap|] + tail[|gap|..|gap| + |block|] + tail[|gap| + |block|..];
    }
    var all := gap + block + rest;
    assert all[..|gap|] == gap && all[|gap|..|gap| + |block|] == block && all[|gap| + |block|..] == rest;
  }

  lemma {:induction false} AlignedStep(a: seq<string>, ca: nat, b: seq<string>, cb: nat, hunks: seq<Hunk>, c: Coords)
    requires hunks != [] && Coordinates(hunks[0].header) == Ok(c)
    ensures Aligned(a, ca, b, cb, hunks) <==>
            && ca <= c.start && c.start + c.oldCount <= |a|
            && cb <= c.newStart && c.newStart + c.newCount <= |b|
            && a[ca..c.start] == b[cb..c.newStart]
            && a[c.start..c.start + c.oldCount] == Block(Old, hunks[0].lines)
            && b[c.newStart..c.newStart + c.newCount] == Block(New, hunks[0].lines)
            && Aligned(a, c.start + c.oldCount, b, c.newStart + c.newCount, hunks[1..])
  {
    hide Coordinates, Block;
  }

  /** Cutting the written file at the end of a gap and of a new block. */
  lemma {:induction false} CutAtBlock(b: seq<string>, produced: nat, gap: seq<string>, block: seq<string>,
                                      rest: seq<string>)
    requires produced <= |b|
    ensures b[produced..] == gap + block + rest <==>
            var from, to := produced + |gap|, produced + |gap| + |block|;
            to <= |b| && b[produced..from] == gap && b[from..to] == block && b[to..] == rest
  {
    SplitAgreement(b[produced..], gap, block, rest);
    var from, to := produced + |gap|, produced + |gap| + |block|;
    if to <= |b| {
      assert b[produced..][..|gap|] == b[produced..from];
      assert b[produced..][|gap|..|gap| + |block|] == b[from..to];
      assert b[produced..][|gap| + |block|..] == b[to..];
    }
  }

  /** The engine accepts hunks and writes `b` exactly when `original` and `b` line up along them. */
  lemma {:induction false} SpliceIsAlignment(original: seq<string>, cursor: nat, b: seq<string>, produced: nat,
                                             hunks: seq<Hunk>)
    requires cursor <= |original| && produced <= |b|
    ensures Aligned(original, cursor, b, produced, hunks)
       <==> Refusal(original, cursor, produced, hunks) == None
            && b[produced..] == Splice(original, cursor, produced, hunks)
    decreases |hunks|, 1
  {
    hide Coordinates, Block;
    if hunks != [] && Coordinates(hunks[0].header).Ok? {
      SpliceIsAlignmentStep(original, cursor, b, produced, hunks, Coordinates(hunks[0].header).value);
    }
  }

  lemma {:induction false} SpliceIsAlignmentStep(original: seq<string>, cursor: nat, b: seq<string>, produced: nat,
                                                 hunks: seq<Hunk>, c: Coords)
    requires cursor <= |original| && produced <= |b|
    requires hunks != [] && Coordinates(hunks[0].header) == Ok(c)
    ensures Aligned(original, cursor, b, produced, hunks)
       <==> Refusal(original, cursor, produced, hunks) == None
            && b[produced..] == Splice(original, cursor, produced, hunks)
    decreases |hunks|, 0
  {
    hide Coordinates, Block, Aligned, Refusal, Splice;
    assert hunks[0..] == hunks;
    HunkStep(original, cursor, produced, hunks, 0, c);
    AlignedStep(original, cursor, b, produced, hunks, c);
    var end, newEnd := c.start + c.oldCount, c.newStart + c.newCount;
    var newBlock := Block(New, hunks[0].lines);
    if cursor <= c.start && end <= |original| && c.newStart == produced + (c.start - cursor) {
      PrefixIsSlice(Block(Old, hunks[0].lines), original, c.start, c.oldCount);
      if |newBlock| == c.newCount && Refusal(original, end, newEnd, hunks[1..]) == None {
        CutAtBlock(b, produced, original[cursor..c.start], newBlock, Splice(original, end, newEnd, hunks[1..]));
      }
      if newEnd <= |b| {
        SpliceIsAlignment(original, end, b, newEnd, hunks[1..]);
      }
    }
  }

  /** The two files an accepted plan relates. */
  ghost predicate Relates(text: string, plan: Plan, original: seq<string>, output: seq<string>)
    requires plan.Diff?
  {
    && Readable(text)
    && original == KeepEnds(CollapseCrlf(text))
    && Aligned(original, 0, output, 0, plan.hunks)
    && AllTerminated(output)
  }

  /** A diff applies exactly when some output lines up with the text along its hunks. */
  lemma {:induction false} AppliesIffAligned(text: string, plan: Plan, output: seq<string>)
    requires plan.Diff?
    ensures Relates(text, plan, KeepEnds(CollapseCrlf(text)), output) ==>
              Applied(text, plan) == Ok(Render(output, OutputNewline(text, plan.newline)))
    ensures Applied(text, plan).Ok? ==>
              Relates(text, plan, KeepEnds(CollapseCrlf(text)),
                      Splice(KeepEnds(CollapseCrlf(text)), 0, 0, plan.hunks))
  {
    hide Coordinates, Block, Aligned, Refusal, Splice, KeepEnds, CollapseCrlf, DropCrlf, HasCrlf, Render, Occurrences;
    var original := KeepEnds(CollapseCrlf(text));
    SpliceIsAlignment(original, 0, output, 0, plan.hunks);
    assert output[0..] == output;
    if Refusal(original, 0, 0, plan.hunks) == None {
      var spliced := Splice(original, 0, 0, plan.hunks);
      SpliceIsAlignment(original, 0, spliced, 0, plan.hunks);
      assert spliced[0..] == spliced;
    }
  }

  // ----- sizes and positions

  /** The sum over the hunks of new minus old line counts. */
  function Growth(hunks: seq<Hunk>): int {
    if hunks == [] then 0
    else
      (match Coordinates(hunks[0].header) case Err(_) => 0 case Ok(c) => c.newCount - c.oldCount) + Growth(hunks[1..])
  }

  /** The line count changes by exactly the declared growth. */
  lemma {:induction false} SpliceGrows(original: seq<string>, cursor: nat, produced: nat, hunks: seq<Hunk>)
    requires cursor <= |original| && Refusal(original, cursor, produced, hunks) == None
    ensures |Splice(original, cursor, produced, hunks)| == |original| - cursor + Growth(hunks)
    decreases |hunks|
  {
    hide Coordinates, Block;
    if hunks != [] {
      var c := Coordinates(hunks[0].header).value;
      SpliceGrows(original, c.start + c.oldCount, c.newStart + c.newCount, hunks[1..]);
    }
  }

  /** In aligned files every hunk's blocks sit where its header announces them, in both files. */
  lemma {:induction false} BlocksSitWhereAnnounced(a: seq<string>, ca: nat, b: seq<string>, cb: nat, hunks: seq<Hunk>,
                                                   k: nat)
    requires Aligned(a, ca, b, cb, hunks) && k < |hunks|
    ensures Coordinates(hunks[k].header).Ok?
    ensures var c := Coordinates(hunks[k].header).value;
            && c.start + c.oldCount <= |a| && a[c.start..c.start + c.oldCount] == Block(Old, hunks[k].lines)
            && c.newStart + c.newCount <= |b| && b[c.newStart..c.newStart + c.newCount] == Block(New, hunks[k].lines)
    decreases k
  {
    hide Coordinates, Block;
    if k > 0 {
      var c := Coordinates(hunks[0].header).value;
      BlocksSitWhereAnnounced(a, c.start + c.oldCount, b, c.newStart + c.newCount, hunks[1..], k - 1);
    }
  }

  // ----- inversion

  function SwapKind(kind: char): char {
    if kind == '-' then '+' else if kind == '+' then '-' else kind
  }

  function SwapLines(body: seq<BodyLine>): seq<BodyLine> {
    seq(|body|, i requires 0 <= i < |body| => body[i].(kind := SwapKind(body[i].kind)))
  }

  function SwapCoords(c: Coords): Coords {
    Coords(c.newStart, c.newCount, c.start, c.oldCount)
  }

  function ReverseHunk(hunk: Hunk): Hunk
    requires Coordinates(hunk.header).Ok?
  {
    Hunk(HeaderOf(SwapCoords(Coordinates(hunk.header).value)), SwapLines(hunk.lines))
  }

  /** The same hunks read from the new file back to the old one. */
  function ReverseHunks(hunks: seq<Hunk>): seq<Hunk>
    requires forall i | 0 <= i < |hunks| :: Coordinates(hunks[i].header).Ok?
  {
    if hunks == [] then [] else [ReverseHunk(hunks[0])] + ReverseHunks(hunks[1..])
  }

  lemma {:induction false} SwapBlocks(body: seq<BodyLine>)
    requires ValidKinds(body)
    ensures Block(Old, SwapLines(body)) == Block(New, body)
    ensures Block(New, SwapLines(body)) == Block(Old, body)
  {
    if body != [] {
      SwapBlocks(body[1..]);
      assert SwapLines(body)[1..] == SwapLines(body[1..]);
      assert Terminated(SwapLines(body)[0]) == Terminated(body[0]);
    }
  }

  lemma {:induction false} ReverseFirst(hunks: seq<Hunk>)
    requires hunks != [] && ValidHunks(hunks)
    ensures var back, c := ReverseHunks(hunks), Coordinates(hunks[0].header).value;
            && back != [] && back[1..] == ReverseHunks(hunks[1..])
            && Coordinates(back[0].header) == Ok(SwapCoords(c))
            && Block(Old, back[0].lines) == Block(New, hunks[0].lines)
            && Block(New, back[0].lines) == Block(Old, hunks[0].lines)
  {
    hide Coordinates, Block, HeaderOf;
    CoordinatesReadBack(SwapCoords(Coordinates(hunks[0].header).value));
    SwapBlocks(hunks[0].lines);
  }

  lemma {:induction false} AlignmentIsSymmetric(a: seq<string>, ca: nat, b: seq<string>, cb: nat, hunks: seq<Hunk>)
    requires ValidHunks(hunks)
    ensures Aligned(a, ca, b, cb, hunks) <==> Aligned(b, cb, a, ca, ReverseHunks(hunks))
    decreases |hunks|, 1
  {
    if hunks != [] {
      ReverseFirst(hunks);
      AlignmentIsSymmetricStep(a, ca, b, cb, hunks, Coordinates(hunks[0].header).value);
    }
  }

  lemma {:induction false} AlignmentIsSymmetricStep(a: seq<string>, ca: nat, b: seq<string>, cb: nat,
                                                    hunks: seq<Hunk>, c: Coords)
    requires ValidHunks(hunks) && hunks != [] && Coordinates(hunks[0].header) == Ok(c)
    requires var back := ReverseHunks(hunks);
             && back != [] && back[1..] == ReverseHunks(hunks[1..])
             && Coordinates(back[0].header) == Ok(SwapCoords(c))
             && Block(Old, back[0].lines) == Block(New, hunks[0].lines)
             && Block(New, back[0].lines) == Block(Old, hunks[0].lines)
    ensures Aligned(a, ca, b, cb, hunks) <==> Aligned(b, cb, a, ca, ReverseHunks(hunks))
    decreases |hunks|, 0
  {
    hide Coordinates, Block, HeaderOf, ReverseHunks, Aligned;
    AlignedStep(a, ca, b, cb, hunks, c);
    AlignedStep(b, cb, a, ca, ReverseHunks(hunks), SwapCoords(c));
    AlignmentIsSymmetric(a, c.start + c.oldCount, b, c.newStart + c.newCount, hunks[1..]);
  }

  /** A no-newline marker never sits on an empty line. */
  predicate NoEmptyMarked(hunks: seq<Hunk>) {
    forall i, j | 0 <= i < |hunks| && 0 <= j < |hunks[i].lines| ::
      hunks[i].lines[j].noNewline ==> hunks[i].lines[j].text != ""
  }

  /** A line that can stand at the end of a file. */
  predicate LastLine(line: string) {
    WholeLine(line) || (line != "" && NoBreaks(line))
  }

  lemma {:induction false} BlockLines(side: Side, body: seq<BodyLine>)
    requires forall j | 0 <= j < |body| :: NoBreaks(body[j].text)
    ensures (forall j | 0 <= j < |body| :: body[j].noNewline ==> body[j].text != "") ==>
              forall l | l in Block(side, body) :: LastLine(l)
    ensures forall j | 0 <= j < |body| && On(side, body[j].kind) :: Terminated(body[j]) in Block(side, body)
  {
    if body != [] {
      var rest := body[1..];
      BlockLines(side, rest);
      assert forall j | 0 <= j < |rest| :: rest[j] == body[j + 1];
      assert forall j | 1 <= j < |body| :: body[j] == rest[j - 1];
      if !body[0].noNewline {
        assert Terminated(body[0])[..|body[0].text|] == body[0].text;
        assert WholeLine(Terminated(body[0]));
      }
    }
  }

  lemma {:induction false} SplicedLines(original: seq<string>, cursor: nat, produced: nat, hunks: seq<Hunk>)
    requires cursor <= |original| && Refusal(original, cursor, produced, hunks) == None
    requires forall l | l in original :: LastLine(l)
    requires CleanHunks(hunks) && NoEmptyMarked(hunks)
    ensures forall l | l in Splice(original, cursor, produced, hunks) :: LastLine(l)
    decreases |hunks|
  {
    hide Coordinates, Block, LastLine;
    if hunks != [] {
      var c := Coordinates(hunks[0].header).value;
      BlockLines(New, hunks[0].lines);
      SplicedLines(original, c.start + c.oldCount, c.newStart + c.newCount, hunks[1..]);
    }
  }

  lemma {:induction false} LineSeqFromLines(lines: seq<string>)
    requires AllTerminated(lines) && forall l | l in lines :: LastLine(l)
    ensures LineSeq(lines)
  {
    forall i | 0 <= i < |lines|
           ensures WholeLine(lines[i]) || (i == |lines| - 1 && lines[i] != "" && NoBreaks(lines[i])) {
      assert LastLine(lines[i]);
      assert i < |lines| - 1 ==> EndsWithNewline(lines[i]);
    }
  }

  lemma {:induction false} LinesOfText(text: string)
    requires Readable(text)
    ensures var original := KeepEnds(CollapseCrlf(text));
            LineSeq(original) && AllTerminated(original) && "" !in original && forall l | l in original :: LastLine(l)
  {
    ReadableIsRendered(text);
  }

  lemma {:induction false} CleanBlock(side: Side, body: seq<BodyLine>)
    requires forall j | 0 <= j < |body| :: NoBreaks(body[j].text)
    ensures forall l | l in Block(side, body) :: Clean(l)
  {
    if body != [] {
      var rest := body[1..];
      assert forall j | 0 <= j < |rest| :: rest[j] == body[j + 1];
      CleanBlock(side, rest);
      hide Block;
      BlockUnfold(side, body);
      assert Clean(Terminated(body[0])) by { assert NoBreaks(body[0].text); }
    }
  }

  lemma {:induction false} CleanFirst(hunks: seq<Hunk>)
    requires hunks != [] && CleanHunks(hunks)
    ensures CleanHunks(hunks[1..]) && forall j | 0 <= j < |hunks[0].lines| :: NoBreaks(hunks[0].lines[j].text)
  {
    assert CleanHunk(hunks[0]);
  }

  lemma {:induction false} CleanSplice(original: seq<string>, cursor: nat, produced: nat, hunks: seq<Hunk>)
    requires cursor <= |original| && Refusal(original, cursor, produced, hunks) == None
    requires CleanHunks(hunks) && forall l | l in original :: Clean(l)
    ensures forall l | l in Splice(original, cursor, produced, hunks) :: Clean(l)
    decreases |hunks|
  {
    hide Coordinates, Block, Clean, CleanHunks;
    if hunks != [] {
      var c := Coordinates(hunks[0].header).value;
      CleanFirst(hunks);
      CleanBlock(New, hunks[0].lines);
      CleanSplice(original, c.start + c.oldCount, c.newStart + c.newCount, hunks[1..]);
    }
  }

  lemma {:induction false} RenderedCleanly(lines: seq<string>, newline: string)
    requires (newline == LF || newline == CRLF) && forall l | l in lines :: Clean(l)
    ensures Readable(Render(lines, newline))
    ensures '\n' in Render(lines, newline) ==> Style(Render(lines, newline)) == newline
  {
    ConcatClean(lines);
    ExpandFacts(Concat(lines), newline);
    hide Concat, Expand, CollapseCrlf, DropCrlf, HasCrlf;
  }

  lemma {:induction false} LastLineIsClean(line: string)
    requires LastLine(line)
    ensures Clean(line)
  {
    if WholeLine(line) { assert line == line[..|line| - 1] + "\n"; }
  }

  /** Whatever an accepted parsed plan writes is again an accepted text. Its newlines are of the style of the
      text or, if the text has none, of the style the patch itself was written in. */
  lemma {:induction false} ResultIsReadable(text: string, plan: Plan)
    requires Parsed(plan) && Applied(text, plan).Ok?
    ensures Readable(Applied(text, plan).value)
    ensures '\n' in Applied(text, plan).value ==>
              Style(Applied(text, plan).value) == if '\n' in text then Style(text) else plan.newline
  {
    hide Coordinates, Block, Aligned, Refusal, Splice, KeepEnds, CollapseCrlf, DropCrlf, HasCrlf, Occurrences, LastLine,
         LineSeq, Render, Clean;
    AppliesIffAligned(text, plan, []);
    var original := KeepEnds(CollapseCrlf(text));
    LinesOfText(text);
    forall l | l in original ensures Clean(l) { LastLineIsClean(l); }
    CleanSplice(original, 0, 0, plan.hunks);
    RenderedCleanly(Splice(original, 0, 0, plan.hunks), OutputNewline(text, plan.newline));
    StyleNeedsLf(text);
  }

  /** Without a marker on an empty line, the lines read from the result are exactly the spliced lines. */
  lemma {:induction false} ResultReadsBack(text: string, plan: Plan)
    requires Parsed(plan) && Applied(text, plan).Ok? && NoEmptyMarked(plan.hunks)
    ensures LinesKeepEnds(Applied(text, plan).value) == Ok(Splice(KeepEnds(CollapseCrlf(text)), 0, 0, plan.hunks))
  {
    hide Coordinates, Block, Aligned, Refusal, Splice, KeepEnds, CollapseCrlf, DropCrlf, HasCrlf, Occurrences,
         LastLine, LineSeq;
    AppliesIffAligned(text, plan, []);
    var original := KeepEnds(CollapseCrlf(text));
    var output := Splice(original, 0, 0, plan.hunks);
    LinesOfText(text);
    SplicedLines(original, 0, 0, plan.hunks);
    LineSeqFromLines(output);
    RenderReadsBack(output, OutputNewline(text, plan.newline));
  }

  lemma {:induction false} StyleNeedsLf(text: string)
    ensures HasCrlf(text) ==> '\n' in text
  {
    if '\n' !in text { NoCrlfWithoutLf(text); }
  }

  /** The plan that undoes an accepted plan on a text. */
  function Undo(text: string, plan: Plan): Plan
    requires plan.Diff? && ValidHunks(plan.hunks)
  {
    Diff(ReverseHunks(plan.hunks), Style(text))
  }

  lemma {:induction false} UndoRestores(text: string, plan: Plan)
    requires Parsed(plan) && Applied(text, plan).Ok? && NoEmptyMarked(plan.hunks)
    ensures Applied(Applied(text, plan).value, Undo(text, plan)) == Ok(text)
  {
    hide Coordinates, Block, Aligned, Refusal, Splice, KeepEnds, CollapseCrlf, DropCrlf, HasCrlf, Occurrences, LastLine,
         LineSeq, Render;
    var result := Applied(text, plan).value;
    var original := KeepEnds(CollapseCrlf(text));
    var output := Splice(original, 0, 0, plan.hunks);
    AppliesIffAligned(text, plan, []);
    ResultIsReadable(text, plan);
    ResultReadsBack(text, plan);
    AlignmentIsSymmetric(original, 0, output, 0, plan.hunks);
    LinesOfText(text);
    AppliesIffAligned(result, Undo(text, plan), original);
    ReadableIsRendered(text);
    StyleNeedsLf(text);
    StyleNeedsLf(result);
  }

  lemma {:induction false} AlignedBlocksAreFound(a: seq<string>, ca: nat, b: seq<string>, cb: nat, hunks: seq<Hunk>)
    requires Aligned(a, ca, b, cb, hunks)
    ensures forall i, l | 0 <= i < |hunks| && l in Block(Old, hunks[i].lines) :: l in a
    ensures forall i, l | 0 <= i < |hunks| && l in Block(New, hunks[i].lines) :: l in b
    decreases |hunks|
  {
    hide Coordinates, Block;
    if hunks != [] {
      var c := Coordinates(hunks[0].header).value;
      AlignedBlocksAreFound(a, c.start + c.oldCount, b, c.newStart + c.newCount, hunks[1..]);
      assert forall i | 1 <= i < |hunks| :: hunks[i] == hunks[1..][i - 1];
    }
  }

  lemma {:induction false} MarkedLinesAreNonempty(hunks: seq<Hunk>)
    requires ValidHunks(hunks) && CleanHunks(hunks)
    requires forall i | 0 <= i < |hunks| :: "" !in Block(Old, hunks[i].lines)
    requires forall i | 0 <= i < |hunks| :: "" !in Block(New, hunks[i].lines)
    ensures NoEmptyMarked(hunks)
  {
    hide Coordinates, Block;
    forall i, j | 0 <= i < |hunks| && 0 <= j < |hunks[i].lines| && hunks[i].lines[j].noNewline
      ensures hunks[i].lines[j].text != ""
    {
      var body := hunks[i].lines;
      assert CleanHunk(hunks[i]) && ValidHunk(hunks[i]);
      BlockLines(Old, body);
      BlockLines(New, body);
      assert Terminated(body[j]) == body[j].text;
      assert On(Old, body[j].kind) || On(New, body[j].kind);
    }
  }

  /** Patches invert: undoing an accepted parsed plan gives the text back, character for character,
      exactly when no no-newline marker sits on an empty line. */
  lemma {:induction false} PatchesInvert(text: string, plan: Plan)
    requires Parsed(plan) && Applied(text, plan).Ok?
    ensures Applied(Applied(text, plan).value, Undo(text, plan)) == Ok(text) <==> NoEmptyMarked(plan.hunks)
  {
    hide Coordinates, Block, Aligned, Refusal, Splice, KeepEnds, CollapseCrlf, DropCrlf, HasCrlf, Occurrences, LastLine,
         LineSeq, Render, NoEmptyMarked;
    if NoEmptyMarked(plan.hunks) {
      UndoRestores(text, plan);
    } else if Applied(Applied(text, plan).value, Undo(text, plan)).Ok? {
      UndoNeedsNonempty(text, plan);
    }
  }

  lemma {:induction false} UndoNeedsNonempty(text: string, plan: Plan)
    requires Parsed(plan) && Applied(text, plan).Ok?
    requires Applied(Applied(text, plan).value, Undo(text, plan)).Ok?
    ensures NoEmptyMarked(plan.hunks)
  {
    hide Coordinates, Block, Aligned, Refusal, Splice, KeepEnds, CollapseCrlf, DropCrlf, HasCrlf, Occurrences, LastLine,
         LineSeq, Render, NoEmptyMarked, ReverseHunks;
    var result := Applied(text, plan).value;
    var before, after := KeepEnds(CollapseCrlf(text)), KeepEnds(CollapseCrlf(result));
    var undo := Undo(text, plan);
    AppliesIffAligned(text, plan, []);
    AppliesIffAligned(result, undo, []);
    var spliced, restored := Splice(before, 0, 0, plan.hunks), Splice(after, 0, 0, undo.hunks);
    AlignmentIsSymmetric(restored, 0, after, 0, plan.hunks);
    AlignedBlocksAreFound(before, 0, spliced, 0, plan.hunks);
    AlignedBlocksAreFound(restored, 0, after, 0, plan.hunks);
    LinesOfText(text);
    LinesOfText(result);
    MarkedLinesAreNonempty(plan.hunks);
  }

  // ----- replacement of one exact fragment

  predicate OccursAt(text: string, fragment: string, j: nat) {
    j + |fragment| <= |text| && text[j..j + |fragment|] == fragment
  }

  /** One place, and no other. */
  ghost predicate Unique(text: string, fragment: string) {
    exists i: nat :: OccursAt(text, fragment, i) && forall j: nat | OccursAt(text, fragment, j) :: j == i
  }

  /** Two occurrences that share characters. */
  ghost predicate Overlapping(text: string, fragment: string) {
    exists i: nat, j: nat :: OccursAt(text, fragment, i) && OccursAt(text, fragment, j) && i < j < i + |fragment|
  }

  lemma {:induction false} FirstOccurrence(text: string, fragment: string, substitute: string) returns (i: nat)
    requires fragment != "" && Occurrences(text, fragment) >= 1
    ensures OccursAt(text, fragment, i) && forall j: nat | j < i :: !OccursAt(text, fragment, j)
    ensures ReplaceFirst(text, fragment, substitute) == text[..i] + substitute + text[i + |fragment|..]
    ensures Occurrences(text, fragment) == 1 + Occurrences(text[i + |fragment|..], fragment)
  {
    if StartsWith(text, fragment) {
      i := 0;
      assert text[0..|fragment|] == text[..|fragment|] && text[..0] + substitute == substitute;
    } else {
      OneFurther(text, fragment, substitute);
      hide *;
      var k := FirstOccurrence(text[1..], fragment, substitute);
      i := k + 1;
      ShiftedOccurrence(text, fragment, k);
      NoEarlier(text, fragment, k);
      OccursInside(text[1..], fragment, k);
      PrependToCut(text, k, k + |fragment|, substitute);
    }
  }

  lemma {:induction false} OneFurther(text: string, fragment: string, substitute: string)
    requires fragment != "" && Occurrences(text, fragment) >= 1 && !StartsWith(text, fragment)
    ensures text != "" && Occurrences(text, fragment) == Occurrences(text[1..], fragment)
    ensures ReplaceFirst(text, fragment, substitute) == [text[0]] + ReplaceFirst(text[1..], fragment, substitute)
  {
    hide StartsWith;
  }

  lemma {:induction false} OccursInside(text: string, fragment: string, j: nat)
    requires OccursAt(text, fragment, j)
    ensures j + |fragment| <= |text|
  {
  }

  lemma {:induction false} PrependToCut(text: string, k: nat, m: nat, substitute: string)
    requires text != "" && k <= m <= |text[1..]|
    ensures [text[0]] + (text[1..][..k] + substitute + text[1..][m..]) == text[..k + 1] + substitute + text[m + 1..]
    ensures text[1..][m..] == text[m + 1..]
  {
    assert [text[0]] + text[1..][..k] == text[..k + 1];
    assert text[1..][m..] == text[m + 1..];
  }

  lemma {:induction false} ShiftedOccurrence(text: string, fragment: string, j: nat)
    requires text != ""
    ensures OccursAt(text[1..], fragment, j) <==> OccursAt(text, fragment, j + 1)
  {
    if j + 1 + |fragment| <= |text| { assert text[1..][j..j + |fragment|] == text[j + 1..j + 1 + |fragment|]; }
  }

  lemma {:induction false} NoEarlier(text: string, fragment: string, k: nat)
    requires text != "" && fragment != "" && !StartsWith(text, fragment)
    requires forall j: nat | j < k :: !OccursAt(text[1..], fragment, j)
    ensures forall j: nat | j < k + 1 :: !OccursAt(text, fragment, j)
  {
    forall j: nat | j < k + 1 ensures !OccursAt(text, fragment, j) {
      if j > 0 {
        ShiftedOccurrence(text, fragment, j - 1);
      } else if |fragment| <= |text| {
        assert text[0..|fragment|] == text[..|fragment|];
      }
    }
  }

  lemma {:induction false} NoneOccurs(text: string, fragment: string, j: nat)
    requires fragment != "" && Occurrences(text, fragment) == 0
    ensures !OccursAt(text, fragment, j)
  {
    if text != "" && |fragment| <= |text| {
      assert text[0..|fragment|] == text[..|fragment|];
      if j > 0 {
        NoneOccurs(text[1..], fragment, j - 1);
        ShiftedOccurrence(text, fragment, j - 1);
      }
    }
  }

  /** Behind the counted occurrence there is no other. */
  lemma {:induction false} NoneBehind(text: string, fragment: string, i: nat, j: nat)
    requires fragment != "" && i + |fragment| <= |text| && Occurrences(text[i + |fragment|..], fragment) == 0
    requires OccursAt(text, fragment, j)
    ensures j < i + |fragment|
  {
    if i + |fragment| <= j {
      OccursBehind(text, fragment, i + |fragment|, j);
      NoneOccurs(text[i + |fragment|..], fragment, j - (i + |fragment|));
    }
  }

  lemma {:induction false} OccursBehind(text: string, fragment: string, from: nat, j: nat)
    requires from <= j && from <= |text|
    ensures OccursAt(text[from..], fragment, j - from) <==> OccursAt(text, fragment, j)
  {
    if j + |fragment| <= |text| { assert text[from..][j - from..j - from + |fragment|] == text[j..j + |fragment|]; }
  }

  /** A replacement is accepted when the fragment is counted once. It rewrites the earliest occurrence
      and nothing else, and every other occurrence overlaps that one: so the fragment was really unique
      if and only if it does not overlap itself in the text. */
  lemma {:induction false} ReplacementSplices(text: string, fragment: string, substitute: string)
    requires Replace(text, fragment, substitute).Ok?
    ensures exists i: nat :: OccursAt(text, fragment, i)
              && Replace(text, fragment, substitute) == Ok(text[..i] + substitute + text[i + |fragment|..])
              && forall j: nat | OccursAt(text, fragment, j) :: i <= j < i + |fragment|
    ensures Unique(text, fragment) <==> !Overlapping(text, fragment)
  {
    var i := CountedOnce(text, fragment, substitute);
    hide OccursAt, Occurrences, Readable;
    if forall j: nat | OccursAt(text, fragment, j) :: j == i {
      assert Unique(text, fragment);
    }
  }

  lemma {:induction false} CountedOnce(text: string, fragment: string, substitute: string) returns (i: nat)
    requires fragment != "" && Occurrences(text, fragment) == 1
    ensures OccursAt(text, fragment, i)
    ensures ReplaceFirst(text, fragment, substitute) == text[..i] + substitute + text[i + |fragment|..]
    ensures forall j: nat | OccursAt(text, fragment, j) :: i <= j < i + |fragment|
  {
    i := FirstOccurrence(text, fragment, substitute);
    hide Occurrences;
    forall j: nat | OccursAt(text, fragment, j) ensures i <= j < i + |fragment| { NoneBehind(text, fragment, i, j); }
  }

  /** The fragment ends as it begins. */
  ghost predicate Bordered(fragment: string) {
    exists k: nat :: 0 < k < |fragment| && IsShift(fragment, k)
  }

  predicate IsShift(fragment: string, k: nat)
    requires k <= |fragment|
  {
    fragment[k..] == fragment[..|fragment| - k]
  }

  lemma {:induction false} OverlapIsShift(text: string, fragment: string, i: nat, j: nat)
    requires OccursAt(text, fragment, i) && OccursAt(text, fragment, j) && i < j < i + |fragment|
    ensures Bordered(fragment)
  {
    var k := j - i;
    assert fragment[k..] == text[i..i + |fragment|][k..] == text[j..i + |fragment|];
    assert fragment[..|fragment| - k] == text[j..j + |fragment|][..|fragment| - k] == text[j..i + |fragment|];
    assert IsShift(fragment, k);
  }

  lemma {:induction false} ShiftOverlaps(fragment: string, k: nat)
    requires 0 < k < |fragment| && IsShift(fragment, k)
    ensures var text := fragment[..k] + fragment;
            Occurrences(text, fragment) == 1 && OccursAt(text, fragment, 0) && OccursAt(text, fragment, k)
  {
    var text := fragment[..k] + fragment;
    assert text[k..k + |fragment|] == fragment;
    assert text[..|fragment|] == fragment[..k] + fragment[..|fragment| - k] == fragment[..k] + fragment[k..]
           == fragment;
    assert text[0..|fragment|] == fragment;
    TooShort(text[|fragment|..], fragment);
  }

  lemma {:induction false} TooShort(text: string, fragment: string)
    requires |text| < |fragment|
    ensures Occurrences(text, fragment) == 0
  {
    if text != "" { TooShort(text[1..], fragment); }
  }

  /** The count tells a unique fragment from an ambiguous one in every text exactly when the fragment
      has no border, which can be checked before the edit. */
  lemma {:induction false} CountIsReliableIffBorderless(fragment: string)
    requires fragment != ""
    ensures !Bordered(fragment) <==> forall text :: Occurrences(text, fragment) == 1 ==> Unique(text, fragment)
  {
    hide Occurrences, OccursAt, IsShift;
    if Bordered(fragment) {
      var k: nat :| 0 < k < |fragment| && IsShift(fragment, k);
      ShiftOverlaps(fragment, k);
      var text := fragment[..k] + fragment;
      assert Occurrences(text, fragment) == 1 && !Unique(text, fragment);
    } else {
      forall text | Occurrences(text, fragment) == 1 ensures Unique(text, fragment) {
        var i := CountedOnce(text, fragment, "");
        forall j: nat | OccursAt(text, fragment, j) ensures j == i {
          if i != j { OverlapIsShift(text, fragment, i, j); }
        }
      }
    }
  }

  /** An ambiguous edit that the count lets through: the fragment starts at two places. */
  lemma {:induction false} AmbiguousEditIsAccepted()
    ensures OccursAt("aaa", "aa", 0) && OccursAt("aaa", "aa", 1)
    ensures Applied("aaa", Replacement("aa", "b")) == Ok("ba")
  {
    assert "aaa"[2..] == "a" && "a"[1..] == "";
    assert StartsWith("aaa", "aa");
    assert Occurrences("aaa", "aa") == 1 by { TooShort("a", "aa"); }
    assert ReplaceFirst("aaa", "aa", "b") == "ba";
    ShortIsReadable("aaa");
    ShortIsReadable("ba");
  }

  lemma {:induction false} ShortIsReadable(text: string)
    requires '\0' !in text && '\r' !in text
    ensures Readable(text)
  {
    CleanIsCollapsed(text);
  }
}
