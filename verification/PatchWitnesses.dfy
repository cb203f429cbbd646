/** Inputs on which the conditions of the patch laws fail, so that none of them can be dropped. */
module PatchWitnesses {
  import opened Results
  import opened PatchText
  import opened PatchHeader
  import opened PatchHunks
  import opened PatchApply
  import opened PatchLaws
  import opened PatchResolve
  import opened PatchResolveLaws
  import opened PatchOperations

  // ----- a marker on an empty line

  /** A patch that adds one empty line and marks it as having no newline. */
  function EmptyMarkedPlan(): Plan {
    Diff([Hunk(HeaderOf(Coords(0, 0, 0, 1)), [BodyLine('+', "", true)])], LF)
  }

  lemma {:induction false} EmptyMarkedBlocks()
    ensures var body := [BodyLine('+', "", true)];
            && Block(Old, body) == [] && Block(New, body) == [""]
            && OldCount(body) == 0 && NewCount(body) == 1 && ValidKinds(body)
  {
    var body := [BodyLine('+', "", true)];
    assert body[1..] == [];
    BlockSizes(body);
  }

  lemma {:induction false} EmptyMarkedIsParsed()
    ensures Parsed(EmptyMarkedPlan()) && !NoEmptyMarked(EmptyMarkedPlan().hunks)
    ensures EmptyMarkedPlan().Diff? && EmptyMarkedPlan().newline == LF && |EmptyMarkedPlan().hunks| == 1
    ensures Coordinates(EmptyMarkedPlan().hunks[0].header) == Ok(Coords(0, 0, 0, 1))
  {
    hide Coordinates, HeaderOf, NoBreaks, ValidKinds, OldCount, NewCount;
    CoordinatesReadBack(Coords(0, 0, 0, 1));
    EmptyMarkedBlocks();
    var hunk := EmptyMarkedPlan().hunks[0];
    assert hunk.lines[0].noNewline && hunk.lines[0].text == "";
    assert NoBreaks("") by { NothingBreaks(); }
    assert ValidHunk(hunk) && CleanHunk(hunk);
  }

  lemma {:induction false} NothingBreaks()
    ensures NoBreaks("")
  {
  }

  lemma {:induction false} EmptyFile()
    ensures KeepEnds("") == [] && CollapseCrlf("") == "" && Readable("")
    ensures AllTerminated([""]) && Render([""], LF) == "" && OutputNewline("", LF) == LF
  {
    assert Concat([""]) == "";
  }

  lemma {:induction false} EmptyMarkedApplies()
    ensures Applied("", EmptyMarkedPlan()) == Ok("")
  {
    EmptyMarkedIsParsed();
    EmptyMarkedBlocks();
    EmptyFile();
    var hunk := EmptyMarkedPlan().hunks[0];
    assert hunk.lines == [BodyLine('+', "", true)] && EmptyMarkedPlan().hunks == [hunk];
    hide EmptyMarkedPlan, Parsed, NoEmptyMarked, Coordinates, Block, Refusal, Splice, Readable, KeepEnds, Render,
         OutputNewline,
         CollapseCrlf, AllTerminated;
    WholeFileHunk([], hunk, Coords(0, 0, 0, 1));
  }

  /** It is read from text, it applies to the empty file, and undoing it fails. */
  lemma {:induction false} EmptyMarkedLineCannotBeUndone()
    ensures Parsed(EmptyMarkedPlan()) && Applied("", EmptyMarkedPlan()) == Ok("")
    ensures Applied("", Undo("", EmptyMarkedPlan())) != Ok("")
  {
    hide EmptyMarkedPlan, NoEmptyMarked, Applied, Undo, Parsed;
    EmptyMarkedIsParsed();
    EmptyMarkedApplies();
    PatchesInvert("", EmptyMarkedPlan());
  }

  // ----- a last line without a newline

  function DeleteLastDiff(line: string): string { Join(["@@", "-" + line]) + "\n" }

  lemma {:induction false} BareHeaderIsBare()
    ensures ReadHeader("@@") == None && StartsHunk("@@") && NoBreaks("@@")
  {
    assert "@@"[1..][1..] == "";
  }

  lemma {:induction false} DiffLines(line: string)
    requires NoBreaks(line)
    ensures Lines(DeleteLastDiff(line)) == Ok(["@@", "-" + line])
    ensures BareUpdate(["@@", "-" + line])
    ensures Sections(["@@", "-" + line]) == [Section("@@", ["-" + line])]
  {
    BareHeaderIsBare();
    var ls, body := ["@@", "-" + line], ["-" + line];
    hide ReadHeader;
    JoinedLinesReadBack(ls, LF);
    LfIsIdentity(DeleteLastDiff(line));
    assert ls[1..] == body && body[1..] == [];
    assert BodyRun(body) == 1 && body[..1] == body && body[1..] == [];
  }

  lemma {:induction false} OneLine(line: string)
    requires line != "" && NoBreaks(line)
    ensures Lines(line) == Ok([line]) && !EndsWithNewline(line)
  {
    CleanIsCollapsed(line);
    SplitSingle(line);
    assert line[|line| - 1] in line;
  }

  lemma {:induction false} OnlyLineIsLocated(line: string)
    requires NoBreaks(line)
    ensures var s := Section("@@", ["-" + line]);
            && BareSection(s) && Locate(s, [line], 0, 0).Ok?
            && Locate(s, [line], 0, 0).value.start + Locate(s, [line], 0, 0).value.oldCount == 1
  {
    var body := ["-" + line];
    BareHeaderIsBare();
    hide ReadHeader, ResolvedHeader;
    assert body[1..] == [] && body[0][1..] == line;
    assert Texts(Old, body) == [line];
    assert [line][0..1] == [line];
    assert Matches([line], [line], 1) == [];
    assert Matches([line], [line], 0) == [0];
  }

  lemma {:induction false} OnlyLineIsResolved(line: string)
    requires line != "" && NoBreaks(line)
    ensures var resolved := ResolveSections([Section("@@", ["-" + line])], [line], 0, 0);
            && resolved.Ok? && AllBodyLines(resolved.value) && OldEnd(HunksOf(resolved.value), 0) == 1
  {
    var s := Section("@@", ["-" + line]);
    OnlyLineIsLocated(line);
    hide Locate, BareSection, OldEnd, HunksOf;
    var l := Locate(s, [line], 0, 0).value;
    assert [s][1..] == [] && [Section(l.header, s.body)] + [] == [Section(l.header, s.body)];
    assert ResolveSections([s], [line], 0, 0) == Ok([Section(l.header, s.body)]);
    FirstEnd(s, [line], 0, 0, l, []);
    NoEnd(1);
  }

  /** Deleting the only line of a file without a final newline: the bare header resolves, the result
      parses, and it does not apply. */
  lemma {:induction false} UnterminatedLineDoesNotApply(line: string)
    requires line != "" && NoBreaks(line)
    ensures Resolve(DeleteLastDiff(line), line).Ok?
    ensures ParsePatch(Resolve(DeleteLastDiff(line), line).value).Ok?
    ensures Applied(line, ParsePatch(Resolve(DeleteLastDiff(line), line).value).value).Err?
  {
    DiffLines(line);
    OneLine(line);
    OnlyLineIsResolved(line);
    BareHeaderIsBare();
    hide DeleteLastDiff, Lines, Sections, ResolveSections, BareUpdate, OldEnd, HunksOf, ParsePatch, Applied, Parsed,
         ReadHeader;
    assert Resolve(DeleteLastDiff(line), line).Ok?;
    ResolvedParses(DeleteLastDiff(line), line);
    ResolvedUpdatesApply(DeleteLastDiff(line), line);
  }
}
