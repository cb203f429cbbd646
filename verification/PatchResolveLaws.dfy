/** The promise of the resolver: updates with bare headers, once resolved, parse and apply. */
module PatchResolveLaws {
  import opened Results
  import opened PatchText
  import opened PatchHeader
  import opened PatchHunks
  import opened PatchApply
  import opened PatchLaws
  import opened PatchResolve

  predicate BodyLines(body: seq<string>) {
    forall i | 0 <= i < |body| :: body[i] != "" && IsKind(body[i][0])
  }

  /** An update whose headers are all bare and whose other lines are all body lines. */
  predicate BareUpdate(ls: seq<string>) {
    forall i | 0 <= i < |ls| ::
      if StartsHunk(ls[i]) then ReadHeader(ls[i]) == None else ls[i] != "" && IsKind(ls[i][0])
  }

  predicate CleanLines(ls: seq<string>) {
    forall i | 0 <= i < |ls| :: NoBreaks(ls[i])
  }

  predicate BareSection(s: Section) {
    ReadHeader(s.header) == None && BodyLines(s.body) && CleanLines(s.body)
  }

  predicate BareSections(sections: seq<Section>) {
    sections == [] || (BareSection(sections[0]) && BareSections(sections[1..]))
  }

  predicate AllBodyLines(sections: seq<Section>) {
    sections == [] || (BodyLines(sections[0].body) && AllBodyLines(sections[1..]))
  }

  lemma {:induction false} SectionsAreBare(ls: seq<string>)
    requires BareUpdate(ls) && CleanLines(ls) && (ls != [] ==> StartsHunk(ls[0]))
    ensures BareSections(Sections(ls))
    decreases |ls|
  {
    if ls != [] {
      var k := BodyRun(ls[1..]);
      var rest := ls[1..][k..];
      assert forall i | 0 <= i < |rest| :: rest[i] == ls[1 + k + i];
      assert forall i | 0 <= i < k :: ls[1..][..k][i] == ls[1 + i];
      SectionsAreBare(rest);
    }
  }

  // ----- resolved sections as hunks

  function BodyOf(body: seq<string>): seq<BodyLine>
    requires BodyLines(body)
  {
    if body == [] then [] else [BodyLine(body[0][0], body[0][1..], false)] + BodyOf(body[1..])
  }

  function HunksOf(sections: seq<Section>): seq<Hunk>
    requires AllBodyLines(sections)
  {
    if sections == [] then [] else [Hunk(sections[0].header, BodyOf(sections[0].body))] + HunksOf(sections[1..])
  }

  function Ended(texts: seq<string>): seq<string> {
    if texts == [] then [] else [texts[0] + "\n"] + Ended(texts[1..])
  }

  lemma {:induction false} EndedAt(texts: seq<string>)
    ensures |Ended(texts)| == |texts| && forall i | 0 <= i < |texts| :: Ended(texts)[i] == texts[i] + "\n"
  {
    if texts != [] { EndedAt(texts[1..]); }
  }

  lemma {:induction false} BodyIsPrinted(body: seq<string>)
    requires BodyLines(body)
    ensures PrintBody(BodyOf(body)) == body && ValidKinds(BodyOf(body))
  {
    hide NoNewlineMarker;
    if body == [] {
    } else {
      BodyIsPrinted(body[1..]);
      assert body[0] == [body[0][0]] + body[0][1..];
      assert body == [body[0]] + body[1..];
      var rest := BodyOf(body[1..]);
      var line := BodyLine(body[0][0], body[0][1..], false);
      assert BodyOf(body) == [line] + rest && ([line] + rest)[1..] == rest;
      assert PrintLine(line) == [body[0]];
    }
  }

  lemma {:induction false} BodyBlocks(side: Side, body: seq<string>)
    requires BodyLines(body)
    ensures Block(side, BodyOf(body)) == Ended(Texts(side, body))
    ensures |Block(side, BodyOf(body))| == |Texts(side, body)|
  {
    EndedAt(Texts(side, body));
    if body == [] {
    } else {
      BodyBlocks(side, body[1..]);
      var rest := BodyOf(body[1..]);
      var line := BodyLine(body[0][0], body[0][1..], false);
      assert BodyOf(body) == [line] + rest && ([line] + rest)[1..] == rest;
      var texts := Texts(side, body[1..]);
      assert ([line.text] + texts)[1..] == texts && [] + texts == texts;
      assert [] + Ended(texts) == Ended(texts);
    }
  }

  // ----- one located section

  /** The file's lines with their terminators; only the last may lack one. */
  predicate KeptLines(original: seq<string>, kept: seq<string>, terminated: bool) {
    && |kept| == |original|
    && (forall i | 0 <= i < |original| - 1 :: kept[i] == original[i] + "\n")
    && (original != [] ==> kept[|kept| - 1] == original[|kept| - 1] + if terminated then "\n" else "")
  }

  lemma {:induction false} LocatedBare(s: Section, original: seq<string>, cursor: nat, delta: int, l: Located)
    requires BareSection(s) && Locate(s, original, cursor, delta) == Ok(l)
    requires cursor + delta >= 0
    ensures var preimage := Texts(Old, s.body);
            && preimage != [] && l.oldCount == |preimage| && l.newCount == |Texts(New, s.body)|
            && l.start + l.oldCount <= |original| && original[l.start..l.start + l.oldCount] == preimage
    ensures cursor <= l.start && l.start + delta >= 0
    ensures Coordinates(l.header) == Ok(Coords(l.start, l.oldCount, l.start + delta, l.newCount))
    ensures NoBreaks(l.header)
  {
    hide Coordinates, Write, Texts;
    assert l.start in Matches(original, Texts(Old, s.body), cursor);
    CoordinatesReadBack(Coords(l.start, l.oldCount, l.start + delta, l.newCount));
  }

  /** The located preimage is found with its terminators unless it reaches an unterminated last line. */
  lemma {:induction false} PreimageFound(original: seq<string>, kept: seq<string>, terminated: bool, start: nat,
                                         preimage: seq<string>)
    requires KeptLines(original, kept, terminated)
    requires preimage != [] && start + |preimage| <= |original| && original[start..start + |preimage|] == preimage
    ensures Ended(preimage) <= kept[start..] <==> terminated || start + |preimage| < |original|
  {
    hide Ended;
    EndedAt(preimage);
    var n := |preimage|;
    if terminated || start + n < |original| {
      forall i | 0 <= i < n ensures kept[start + i] == Ended(preimage)[i] {
        assert original[start..start + n][i] == original[start + i];
      }
      assert kept[start..start + n] == Ended(preimage);
      assert kept[start..][..n] == kept[start..start + n];
    } else {
      assert original[start..start + n][n - 1] == original[start + n - 1];
      assert kept[start..][n - 1] == kept[start + n - 1] == preimage[n - 1];
      assert |kept[start..][n - 1]| < |Ended(preimage)[n - 1]|;
    }
  }

  /** The line of the old file behind the last hunk. */
  function OldEnd(hunks: seq<Hunk>, cursor: nat): nat {
    if hunks == [] then cursor
    else
      match Coordinates(hunks[0].header)
      case Err(_) => cursor
      case Ok(c) => OldEnd(hunks[1..], c.start + c.oldCount)
  }

  // ----- all sections

  lemma {:induction false} LocatedBounds(s: Section, original: seq<string>, cursor: nat, delta: int, l: Located)
    requires BareSection(s) && Locate(s, original, cursor, delta) == Ok(l)
    requires cursor + delta >= 0
    ensures cursor <= l.start && l.start + delta >= 0 && BodyLines(s.body)
  {
    LocatedBare(s, original, cursor, delta, l);
  }

  lemma {:induction false} HunksOfStep(s: Section, more: seq<Section>)
    requires BodyLines(s.body) && AllBodyLines(more)
    ensures AllBodyLines([s] + more)
    ensures HunksOf([s] + more) == [Hunk(s.header, BodyOf(s.body))] + HunksOf(more)
    ensures HunksOf([s] + more)[1..] == HunksOf(more)
  {
    hide BodyLines, BodyOf;
    assert ([s] + more)[1..] == more;
  }

  lemma {:induction false} FirstEnd(s: Section, original: seq<string>, cursor: nat, delta: int, l: Located,
                                    more: seq<Section>)
    requires BareSection(s) && Locate(s, original, cursor, delta) == Ok(l) && cursor + delta >= 0
    requires AllBodyLines(more)
    ensures AllBodyLines([Section(l.header, s.body)] + more)
    ensures OldEnd(HunksOf([Section(l.header, s.body)] + more), cursor) == OldEnd(HunksOf(more), l.start + l.oldCount)
  {
    LocatedBare(s, original, cursor, delta, l);
    hide Coordinates, Locate, Texts, BodyLines, HunksOf, NoBreaks;
    HunksOfStep(Section(l.header, s.body), more);
  }

  lemma {:induction false} ResolvedBodies(sections: seq<Section>, original: seq<string>, cursor: nat, delta: int)
    requires BareSections(sections) && cursor + delta >= 0
    requires ResolveSections(sections, original, cursor, delta).Ok?
    ensures AllBodyLines(ResolveSections(sections, original, cursor, delta).value)
    ensures cursor <= OldEnd(HunksOf(ResolveSections(sections, original, cursor, delta).value), cursor)
  {
    hide *;
    if sections == [] {
      NoneResolved(original, cursor, delta);
      NoEnd(cursor);
    } else {
      FirstResolved(sections, original, cursor, delta);
      var l := Locate(sections[0], original, cursor, delta).value;
      LocatedBounds(sections[0], original, cursor, delta, l);
      var end, shift := l.start + l.oldCount, delta + l.newCount - l.oldCount;
      ResolvedBodies(sections[1..], original, end, shift);
      var more := ResolveSections(sections[1..], original, end, shift).value;
      FirstEnd(sections[0], original, cursor, delta, l, more);
      BehindSection(Section(l.header, sections[0].body), more);
    }
  }

  lemma {:induction false} FirstHunk(s: Section, l: Located, original: seq<string>, cursor: nat, delta: int,
                                     more: seq<Section>)
    requires BareSection(s) && Locate(s, original, cursor, delta) == Ok(l) && cursor + delta >= 0
    requires AllBodyLines(more)
    requires PrintHunks(HunksOf(more)) == Flat(more) && ValidHunks(HunksOf(more)) && CleanLines(Flat(more))
    ensures var all := [Section(l.header, s.body)] + more;
            && AllBodyLines(all) && PrintHunks(HunksOf(all)) == Flat(all)
            && ValidHunks(HunksOf(all)) && CleanLines(Flat(all))
  {
    LocatedBare(s, original, cursor, delta, l);
    BodyIsPrinted(s.body);
    BodyBlocks(Old, s.body);
    BodyBlocks(New, s.body);
    var section, hunk := Section(l.header, s.body), Hunk(l.header, BodyOf(s.body));
    BlockSizes(hunk.lines);
    assert ValidHunk(hunk) by { hide Coordinates, Texts, Locate, BodyOf, HunksOf, Block, PrintBody, Flat, BodyLines,
                               CleanLines; }
    BareIsClean(s);
    hide *;
    HunksOfStep(section, more);
    PrependHunk(hunk, HunksOf(more));
    PrependSection(section, more);
  }

  lemma {:induction false} BareIsClean(s: Section)
    requires BareSection(s)
    ensures CleanLines(s.body) && BodyLines(s.body)
  {
  }

  lemma {:induction false} PrependHunk(hunk: Hunk, more: seq<Hunk>)
    requires ValidHunk(hunk) && ValidHunks(more)
    ensures ValidHunks([hunk] + more)
            && PrintHunks([hunk] + more) == [hunk.header] + PrintBody(hunk.lines) + PrintHunks(more)
  {
    hide ValidHunk, PrintBody;
    assert ([hunk] + more)[1..] == more;
  }

  lemma {:induction false} PrependSection(section: Section, more: seq<Section>)
    requires NoBreaks(section.header) && CleanLines(section.body) && CleanLines(Flat(more))
    ensures Flat([section] + more) == [section.header] + section.body + Flat(more) && CleanLines(Flat([section] + more))
  {
    hide NoBreaks;
    assert ([section] + more)[1..] == more;
  }

  lemma {:induction false} NoneResolved(original: seq<string>, cursor: nat, delta: int)
    ensures ResolveSections([], original, cursor, delta) == Ok([])
    ensures AllBodyLines([]) && PrintHunks(HunksOf([])) == Flat([]) && ValidHunks(HunksOf([])) && CleanLines(Flat([]))
  {
    hide Coordinates;
  }

  lemma {:induction false} FirstResolved(sections: seq<Section>, original: seq<string>, cursor: nat, delta: int)
    requires sections != [] && BareSections(sections) && ResolveSections(sections, original, cursor, delta).Ok?
    ensures BareSection(sections[0]) && BareSections(sections[1..])
    ensures Locate(sections[0], original, cursor, delta).Ok?
    ensures var l := Locate(sections[0], original, cursor, delta).value;
            var rest := ResolveSections(sections[1..], original, l.start + l.oldCount, delta + l.newCount - l.oldCount);
            rest.Ok? && ResolveSections(sections, original, cursor, delta)
              == AfterSection(Section(l.header, sections[0].body), rest)
  {
    hide Locate, BareSection;
  }

  lemma {:induction false} BehindSection(first: Section, more: seq<Section>)
    ensures AfterSection(first, Ok(more)) == Ok([first] + more)
  {
  }

  /** Resolved sections are the printed form of valid hunks without breaks. */
  lemma {:induction false} ResolvedIsPrinted(sections: seq<Section>, original: seq<string>, cursor: nat, delta: int)
    requires BareSections(sections) && cursor + delta >= 0
    requires ResolveSections(sections, original, cursor, delta).Ok?
    ensures var resolved := ResolveSections(sections, original, cursor, delta).value;
            && AllBodyLines(resolved) && PrintHunks(HunksOf(resolved)) == Flat(resolved)
            && ValidHunks(HunksOf(resolved)) && CleanLines(Flat(resolved))
  {
    hide *;
    if sections == [] {
      NoneResolved(original, cursor, delta);
    } else {
      FirstResolved(sections, original, cursor, delta);
      var l := Locate(sections[0], original, cursor, delta).value;
      LocatedBounds(sections[0], original, cursor, delta, l);
      var end, shift := l.start + l.oldCount, delta + l.newCount - l.oldCount;
      ResolvedIsPrinted(sections[1..], original, end, shift);
      var more := ResolveSections(sections[1..], original, end, shift).value;
      FirstHunk(sections[0], l, original, cursor, delta, more);
      BehindSection(Section(l.header, sections[0].body), more);
    }
  }

  /** The checks on the first hunk of a located section. */
  lemma {:induction false} FirstFits(s: Section, l: Located, original: seq<string>, cursor: nat, delta: int,
                                     kept: seq<string>, terminated: bool, more: seq<Section>)
    requires BareSection(s) && Locate(s, original, cursor, delta) == Ok(l) && cursor + delta >= 0
    requires KeptLines(original, kept, terminated)
    requires AllBodyLines(more)
    ensures l.start + delta >= 0 && AllBodyLines([Section(l.header, s.body)] + more)
    ensures Refusal(kept, cursor, cursor + delta, HunksOf([Section(l.header, s.body)] + more)) ==
            if terminated || l.start + l.oldCount < |original|
            then Refusal(kept, l.start + l.oldCount, l.start + delta + l.newCount, HunksOf(more))
            else Some(StalePreimage)
  {
    hide *;
    LocatedBare(s, original, cursor, delta, l);
    PreimageFound(original, kept, terminated, l.start, Texts(Old, s.body));
    KeptAsMany(original, kept, terminated);
    BareIsClean(s);
    BodiesOfFirst(Section(l.header, s.body), more);
    FirstBlocks(s);
    var hunks := HunksOf([Section(l.header, s.body)] + more);
    HunksOfStep(Section(l.header, s.body), more);
    assert hunks[0..] == hunks && hunks[1..] == HunksOf(more);
    RefusalStep(kept, cursor, cursor + delta, hunks, 0, Coords(l.start, l.oldCount, l.start + delta, l.newCount));
  }

  lemma {:induction false} KeptAsMany(original: seq<string>, kept: seq<string>, terminated: bool)
    requires KeptLines(original, kept, terminated)
    ensures |kept| == |original|
  {
  }

  lemma {:induction false} BodiesOfFirst(first: Section, more: seq<Section>)
    requires BodyLines(first.body) && AllBodyLines(more)
    ensures AllBodyLines([first] + more)
  {
    hide BodyLines;
    assert ([first] + more)[1..] == more;
  }

  /** The blocks of a section's body are its texts, each ended. */
  lemma {:induction false} FirstBlocks(s: Section)
    requires BodyLines(s.body)
    ensures Block(Old, BodyOf(s.body)) == Ended(Texts(Old, s.body))
            && |Block(Old, BodyOf(s.body))| == |Texts(Old, s.body)|
    ensures |Block(New, BodyOf(s.body))| == |Texts(New, s.body)|
  {
    hide *;
    BodyBlocks(Old, s.body);
    BodyBlocks(New, s.body);
  }

  /** No coordinate, overlap, count or preimage check fires on resolved hunks, unless the last of
      them reaches an unterminated last line. */
  lemma {:induction false} ResolvedFits(sections: seq<Section>, original: seq<string>, cursor: nat, delta: int,
                                        kept: seq<string>, terminated: bool)
    requires BareSections(sections) && cursor + delta >= 0
    requires ResolveSections(sections, original, cursor, delta).Ok?
    requires KeptLines(original, kept, terminated)
    ensures var resolved := ResolveSections(sections, original, cursor, delta).value;
            AllBodyLines(resolved)
            && (Refusal(kept, cursor, cursor + delta, HunksOf(resolved)) == None
                <==> sections == [] || terminated || OldEnd(HunksOf(resolved), cursor) < |original|)
    decreases |sections|, 1
  {
    if sections == [] {
      assert HunksOf([]) == [];
    } else {
      ResolvedFitsStep(sections, original, cursor, delta, kept, terminated,
                       Locate(sections[0], original, cursor, delta).value);
    }
  }

  lemma {:induction false} ResolvedFitsStep(sections: seq<Section>, original: seq<string>, cursor: nat, delta: int,
                                            kept: seq<string>, terminated: bool, l: Located)
    requires sections != [] && BareSections(sections) && cursor + delta >= 0
    requires ResolveSections(sections, original, cursor, delta).Ok?
    requires KeptLines(original, kept, terminated)
    requires Locate(sections[0], original, cursor, delta) == Ok(l)
    ensures var resolved := ResolveSections(sections, original, cursor, delta).value;
            AllBodyLines(resolved)
            && (Refusal(kept, cursor, cursor + delta, HunksOf(resolved)) == None
                <==> terminated || OldEnd(HunksOf(resolved), cursor) < |original|)
    decreases |sections|, 0
  {
    hide Locate, BareSection, BodyLines, AllBodyLines, HunksOf, Refusal, KeptLines, OldEnd;
    LocatedBounds(sections[0], original, cursor, delta, l);
    var end, shift := l.start + l.oldCount, delta + l.newCount - l.oldCount;
    ResolvedFits(sections[1..], original, end, shift, kept, terminated);
    ResolvedBodies(sections[1..], original, end, shift);
    NoEnd(end);
    var more := ResolveSections(sections[1..], original, end, shift).value;
    FirstFits(sections[0], l, original, cursor, delta, kept, terminated, more);
    FirstEnd(sections[0], original, cursor, delta, l, more);
    assert ResolveSections(sections, original, cursor, delta).value == [Section(l.header, sections[0].body)] + more;
  }

  lemma {:induction false} NoEnd(cursor: nat)
    ensures OldEnd(HunksOf([]), cursor) == cursor
  {
  }

  // ----- the spliced output and the whole text

  predicate NoMarks(hunks: seq<Hunk>) {
    hunks == [] || ((forall i | 0 <= i < |hunks[0].lines| :: !hunks[0].lines[i].noNewline) && NoMarks(hunks[1..]))
  }

  predicate EveryTerminated(lines: seq<string>) {
    forall i | 0 <= i < |lines| :: EndsWithNewline(lines[i])
  }

  lemma {:induction false} UnmarkedBlock(side: Side, body: seq<BodyLine>)
    requires forall i | 0 <= i < |body| :: !body[i].noNewline
    ensures EveryTerminated(Block(side, body))
  {
    if body != [] {
      UnmarkedBlock(side, body[1..]);
    }
  }

  lemma {:induction false} OldEndOf(hunks: seq<Hunk>, cursor: nat)
    ensures hunks == [] ==> OldEnd(hunks, cursor) == cursor
    ensures hunks != [] && Coordinates(hunks[0].header).Ok? ==>
              OldEnd(hunks, cursor)
                == OldEnd(hunks[1..],
                          Coordinates(hunks[0].header).value.start + Coordinates(hunks[0].header).value.oldCount)
  {
    hide Coordinates;
  }

  /** An accepted first hunk has readable coordinates inside the file. */
  lemma {:induction false} FirstAccepted(kept: seq<string>, cursor: nat, produced: nat, hunks: seq<Hunk>)
    requires hunks != [] && cursor <= |kept| && Refusal(kept, cursor, produced, hunks) == None
    ensures Coordinates(hunks[0].header).Ok?
    ensures var c := Coordinates(hunks[0].header).value;
            cursor <= c.start && c.start + c.oldCount <= |kept|
  {
    hide Coordinates, Block;
  }

  lemma {:induction false} UnmarkedFirst(hunks: seq<Hunk>)
    requires hunks != [] && NoMarks(hunks)
    ensures NoMarks(hunks[1..]) && forall i | 0 <= i < |hunks[0].lines| :: !hunks[0].lines[i].noNewline
  {
  }

  lemma {:induction false} TailTerminated(kept: seq<string>, cursor: nat)
    requires cursor <= |kept| && AllTerminated(kept)
    ensures AllTerminated(kept[cursor..])
    ensures EveryTerminated(kept) ==> EveryTerminated(kept[cursor..])
    ensures cursor < |kept| ==> kept[cursor..] != []
  {
    hide EndsWithNewline;
    assert forall i | 0 <= i < |kept[cursor..]| :: kept[cursor..][i] == kept[cursor + i];
  }

  lemma {:induction false} GapTerminated(kept: seq<string>, cursor: nat, start: nat)
    requires cursor <= start <= |kept| && AllTerminated(kept) && (EveryTerminated(kept) || start < |kept|)
    ensures EveryTerminated(kept[cursor..start])
  {
    hide EndsWithNewline;
    assert forall i | 0 <= i < start - cursor :: kept[cursor..start][i] == kept[cursor + i];
  }

  /** Splicing terminated lines leaves at most the last line of the file unterminated. */
  lemma {:induction false} SpliceTerminated(kept: seq<string>, cursor: nat, produced: nat, hunks: seq<Hunk>)
    requires cursor <= |kept| && Refusal(kept, cursor, produced, hunks) == None && NoMarks(hunks)
    requires AllTerminated(kept)
    requires EveryTerminated(kept) || OldEnd(hunks, cursor) < |kept|
    ensures AllTerminated(Splice(kept, cursor, produced, hunks))
    ensures EveryTerminated(kept) ==> EveryTerminated(Splice(kept, cursor, produced, hunks))
    ensures !EveryTerminated(kept) ==> cursor < |kept| && Splice(kept, cursor, produced, hunks) != []
    decreases |hunks|
  {
    hide *;
    assert hunks[0..] == hunks;
    if hunks == [] {
      NoHunkLeft(kept, cursor, produced, hunks);
      OldEndOf(hunks, cursor);
      TailTerminated(kept, cursor);
    } else {
      FirstAccepted(kept, cursor, produced, hunks);
      var c := Coordinates(hunks[0].header).value;
      HunkStep(kept, cursor, produced, hunks, 0, c);
      OldEndOf(hunks, cursor);
      UnmarkedFirst(hunks);
      UnmarkedBlock(New, hunks[0].lines);
      SpliceTerminated(kept, c.start + c.oldCount, c.newStart + c.newCount, hunks[1..]);
      GapTerminated(kept, cursor, c.start);
      TerminatedConcat(kept[cursor..c.start], Block(New, hunks[0].lines),
                       Splice(kept, c.start + c.oldCount, c.newStart + c.newCount, hunks[1..]));
    }
  }

  lemma {:induction false} TerminatedConcat(gap: seq<string>, block: seq<string>, rest: seq<string>)
    ensures EveryTerminated(gap) && EveryTerminated(block) && AllTerminated(rest) && rest != []
            ==> AllTerminated(gap + block + rest)
    ensures EveryTerminated(gap) && EveryTerminated(block) && EveryTerminated(rest)
            ==> EveryTerminated(gap + block + rest) && AllTerminated(gap + block + rest)
  {
    hide EndsWithNewline;
  }

  lemma {:induction false} ResolvedUnmarked(sections: seq<Section>)
    requires AllBodyLines(sections)
    ensures NoMarks(HunksOf(sections))
  {
    if sections != [] {
      BodyUnmarked(sections[0].body);
      hide BodyOf, BodyLines;
      ResolvedUnmarked(sections[1..]);
      var hunk := Hunk(sections[0].header, BodyOf(sections[0].body));
      assert ([hunk] + HunksOf(sections[1..]))[1..] == HunksOf(sections[1..]);
    }
  }

  lemma {:induction false} BodyUnmarked(body: seq<string>)
    requires BodyLines(body)
    ensures forall i | 0 <= i < |BodyOf(body)| :: !BodyOf(body)[i].noNewline
  {
    if body != [] { BodyUnmarked(body[1..]); }
  }

  lemma {:induction false} CollapseKeepsEnd(text: string)
    ensures EndsWithNewline(CollapseCrlf(text)) <==> EndsWithNewline(text)
    ensures CollapseCrlf(text) == "" <==> text == ""
  {
    if text == "" {
    } else if |text| >= 2 && text[0] == '\r' && text[1] == '\n' {
      CollapseKeepsEnd(text[2..]);
    } else {
      CollapseKeepsEnd(text[1..]);
    }
  }

  lemma {:induction false} FileLines(source: string)
    requires Readable(source)
    ensures var original, kept := BareLines(CollapseCrlf(source)), KeepEnds(CollapseCrlf(source));
            && KeptLines(original, kept, EndsWithNewline(source)) && AllTerminated(kept)
            && (EveryTerminated(kept) <==> EndsWithNewline(source) || kept == [])
  {
    var x := CollapseCrlf(source);
    CollapseKeepsEnd(source);
    BareAndKept(x);
    LinesOfText(source);
    var original, kept := BareLines(x), KeepEnds(x);
    hide BareLines, KeepEnds, CollapseCrlf, Readable, LineSeq, LastLine;
    forall i | 0 <= i < |kept| && (i < |kept| - 1 || EndsWithNewline(x)) ensures EndsWithNewline(kept[i]) {
      assert kept[i] == original[i] + "\n";
    }
    if kept != [] && !EndsWithNewline(x) {
      var last := |kept| - 1;
      assert kept[last] == original[last] + "" == original[last];
      assert original[last] in original;
      assert !EndsWithNewline(kept[last]);
    }
  }

  /** The printed form of a resolved update is read back as its hunks. */
  lemma {:induction false} ResolvedParses(diff: string, source: string)
    requires Lines(diff).Ok? && BareUpdate(Lines(diff).value) && Resolve(diff, source).Ok?
    ensures var sections, original := Sections(Lines(diff).value), Lines(source).value;
            && BareSections(sections) && sections != []
            && Lines(source).Ok? && ResolveSections(sections, original, 0, 0).Ok?
            && AllBodyLines(ResolveSections(sections, original, 0, 0).value)
            && ParsePatch(Resolve(diff, source).value)
               == Ok(Diff(HunksOf(ResolveSections(sections, original, 0, 0).value), LF))
  {
    var ls, original := Lines(diff).value, Lines(source).value;
    CleanLinesOf(diff);
    SectionsAreBare(ls);
    assert Sections(ls) != [];
    hide Locate, BareSections, BareUpdate, Sections, Readable, BareLines, KeepEnds, CollapseCrlf, HunksOf,
         PrintHunks, Join, Expand, HasCrlf;
    var resolved := ResolveSections(Sections(ls), original, 0, 0).value;
    ResolvedIsPrinted(Sections(ls), original, 0, 0);
    var out := Join(Flat(resolved)) + "\n";
    JoinedLinesReadBack(Flat(resolved), LF);
    LfIsIdentity(out);
    ParseIsInverseOfPrint(Flat(resolved), HunksOf(resolved));
  }

  lemma {:induction false} CleanLinesOf(text: string)
    requires Lines(text).Ok?
    ensures CleanLines(Lines(text).value)
  {
    CollapseExpand(text);
    BareAndKept(CollapseCrlf(text));
  }

  /** Resolved updates always parse. They apply exactly when the file ends in a newline or no
      hunk reaches its last line. */
  lemma {:induction false} ResolvedUpdatesApply(diff: string, source: string)
    requires Lines(diff).Ok? && BareUpdate(Lines(diff).value) && Resolve(diff, source).Ok?
    ensures ParsePatch(Resolve(diff, source).value).Ok?
    ensures var plan := ParsePatch(Resolve(diff, source).value).value;
            && Lines(source).Ok? && Parsed(plan)
            && (Applied(source, plan).Ok? <==>
                EndsWithNewline(source) || OldEnd(plan.hunks, 0) < |Lines(source).value|)
  {
    hide BareUpdate, Sections, Readable, BareLines, CollapseCrlf, HasCrlf, HunksOf, OldEnd, EndsWithNewline,
         ParsePatch, Resolve, Applied, Parsed, BareSections;
    ResolvedParses(diff, source);
    ParsedPlansAreValid(Resolve(diff, source).value);
    ResolvedSectionsApply(Sections(Lines(diff).value), source);
  }

  lemma {:induction false} ResolvedSectionsApply(sections: seq<Section>, source: string)
    requires BareSections(sections) && sections != [] && Lines(source).Ok?
    requires ResolveSections(sections, Lines(source).value, 0, 0).Ok?
    requires AllBodyLines(ResolveSections(sections, Lines(source).value, 0, 0).value)
    ensures var hunks := HunksOf(ResolveSections(sections, Lines(source).value, 0, 0).value);
            Applied(source, Diff(hunks, LF)).Ok? <==>
            EndsWithNewline(source) || OldEnd(hunks, 0) < |Lines(source).value|
  {
    hide *;
    var original, kept := Lines(source).value, KeepEnds(CollapseCrlf(source));
    LinesAreBare(source);
    FileLines(source);
    BareAndKept(CollapseCrlf(source));
    ResolvedFits(sections, original, 0, 0, kept, EndsWithNewline(source));
    var resolved := ResolveSections(sections, original, 0, 0).value;
    ResolvedUnmarked(resolved);
    UnmarkedApplies(source, HunksOf(resolved));
  }

  lemma {:induction false} LinesAreBare(text: string)
    requires Lines(text).Ok?
    ensures Readable(text) && Lines(text) == Ok(BareLines(CollapseCrlf(text)))
  {
    hide Readable, BareLines, CollapseCrlf;
  }

  /** For hunks without markers, only the checks on the hunks can refuse. */
  lemma {:induction false} UnmarkedApplies(source: string, hunks: seq<Hunk>)
    requires Readable(source) && NoMarks(hunks)
    requires var kept := KeepEnds(CollapseCrlf(source));
             Refusal(kept, 0, 0, hunks) == None ==> EveryTerminated(kept) || OldEnd(hunks, 0) < |kept|
    ensures Applied(source, Diff(hunks, LF)).Ok? <==> Refusal(KeepEnds(CollapseCrlf(source)), 0, 0, hunks) == None
  {
    var kept := KeepEnds(CollapseCrlf(source));
    LinesOfText(source);
    hide KeepEnds, CollapseCrlf, HasCrlf, OldEnd, Refusal, Splice, Render, EveryTerminated, AllTerminated;
    if Refusal(kept, 0, 0, hunks) == None {
      SpliceTerminated(kept, 0, 0, hunks);
    }
  }
}
