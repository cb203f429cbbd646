/** Multi-file patches: plans synthesised for add and delete operations, and the all-or-nothing
    application of a list of file patches. */
module PatchOperations {
  import opened Results
  import opened PatchText
  import opened PatchHeader
  import opened PatchHunks
  import opened PatchApply
  import opened PatchResolve
  import opened PatchResolveLaws

  datatype OpError = Refused(error: PatchError) | MissingSource

  /** One file of a patch; `action` is "add", "update" or "delete". */
  datatype FilePatch = FilePatch(path: string, action: string, plan: Plan)

  /** One operation of an envelope, possibly with a plan of its own. */
  datatype FileOp = FileOp(action: string, path: string, diff: string, plan: Option<Plan>)

  type Sources = map<string, Option<string>>

  // ----- the plans for add and delete

  function AddLines(lines: seq<string>): seq<BodyLine> {
    if lines == [] then [] else [BodyLine('+', lines[0], false)] + AddLines(lines[1..])
  }

  /** Delete lines; the last one carries a marker when the file has no final newline. */
  function DeleteLines(lines: seq<string>, terminated: bool): seq<BodyLine> {
    if lines == [] then []
    else [BodyLine('-', lines[0], |lines| == 1 && !terminated)] + DeleteLines(lines[1..], terminated)
  }

  function AddPlan(lines: seq<string>): Plan {
    Diff([Hunk(HeaderOf(Coords(0, 0, 0, |lines|)), AddLines(lines))], LF)
  }

  function DeletePlan(source: string, lines: seq<string>): Plan {
    Diff([Hunk(HeaderOf(Coords(0, |lines|, 0, 0)), DeleteLines(lines, source == "" || EndsWithNewline(source)))], LF)
  }

  /** The plan an operation stands for, given the current content of its file. */
  function PlanOf(op: FileOp, source: Option<string>): Result<Plan, PatchError> {
    if op.plan.Some? then Ok(op.plan.value)
    else if op.action == "update" then
      if source.None? then Err(StalePreimage)
      else
        match Resolve(op.diff, source.value)
        case Err(e) => Err(e)
        case Ok(resolved) => ParsePatch(resolved)
    else if op.action == "add" then
      match Lines(op.diff)
      case Err(e) => Err(e)
      case Ok(lines) => Ok(AddPlan(lines))
    else if op.action == "delete" then
      if source.None? then Err(StalePreimage)
      else
        match Lines(source.value)
        case Err(e) => Err(e)
        case Ok(lines) => Ok(DeletePlan(source.value, lines))
    else Err(InvalidPatch)
  }

  // ----- one file

  /** The new content of a patched file, absent after a deletion. */
  function FileOutcome(source: Option<string>, patch: FilePatch): Result<Option<string>, PatchError> {
    if (patch.action == "add" && source.Some?) || (patch.action != "add" && source.None?) then Err(StalePreimage)
    else
      match Applied(if source.Some? then source.value else "", patch.plan)
      case Err(e) => Err(e)
      case Ok(result) =>
        if patch.action == "delete" && result != "" then Err(InvalidPatch)
        else Ok(if patch.action == "delete" then None else Some(result))
  }

  // ----- all files or none

  predicate Accepts(sources: Sources, patch: FilePatch) {
    patch.path in sources && FileOutcome(sources[patch.path], patch).Ok?
  }

  /** Every file is known, no two paths fold to the same name, and every file accepts its patch. */
  predicate AllAccept(sources: Sources, files: seq<FilePatch>, fold: string -> string) {
    && (forall i | 0 <= i < |files| :: Accepts(sources, files[i]))
    && (forall i, j | 0 <= i < j < |files| :: fold(files[i].path) != fold(files[j].path))
  }

  method ApplyFilePatch(source: Option<string>, patch: FilePatch) returns (r: Result<Option<string>, PatchError>)
    ensures r == FileOutcome(source, patch)
    ensures var content := if source.Some? then source.value else "";
            && (r.Ok? <==>
                && (patch.action == "add" <==> source.None?)
                && Applied(content, patch.plan).Ok?
                && (patch.action == "delete" ==> Applied(content, patch.plan).value == ""))
            && (r.Err? ==> r.error == if patch.action == "add" <==> source.Some? then StalePreimage
                                      else if Applied(content, patch.plan).Err? then Applied(content, patch.plan).error
                                      else InvalidPatch)
            && (r.Ok? ==> (r.value.None? <==> patch.action == "delete"))
            && (r.Ok? && r.value.Some? ==> Applied(content, patch.plan) == Ok(r.value.value))
  {
    hide Applied;
    if (patch.action == "add" && source.Some?) || (patch.action != "add" && source.None?) {
      return Err(StalePreimage);
    }
    var result := ApplyText(if source.Some? then source.value else "", patch.plan);
    if result.Err? { return Err(result.error); }
    if patch.action == "delete" && result.value != "" { return Err(InvalidPatch); }
    return Ok(if patch.action == "delete" then None else Some(result.value));
  }

  /** The output names exactly the patched files, each with its outcome. */
  predicate OutputOf(sources: Sources, files: seq<FilePatch>, count: nat, output: map<string, Option<string>>)
    requires count <= |files|
  {
    && (forall i | 0 <= i < count :: Written(sources, files[i], output))
    && (forall p | p in output :: exists i | 0 <= i < count :: files[i].path == p)
  }

  predicate Written(sources: Sources, patch: FilePatch, output: map<string, Option<string>>) {
    && patch.path in sources && patch.path in output
    && FileOutcome(sources[patch.path], patch) == Ok(output[patch.path])
  }

  method ApplyFilePatches(sources: Sources, files: seq<FilePatch>, fold: string -> string)
    returns (r: Result<map<string, Option<string>>, OpError>)
    ensures r.Ok? <==> AllAccept(sources, files, fold)
    ensures r.Ok? ==> OutputOf(sources, files, |files|, r.value)
    ensures r.Err? ==> exists k :: StopsAt(sources, files, fold, k, r.error)
  {
    hide FileOutcome, AllAccept, OutputOf, Applied, Distinct, StopsAt;
    var output: map<string, Option<string>> := map[];
    NothingWritten(sources, files, fold);
    for k := 0 to |files|
      invariant OutputOf(sources, files, k, output)
      invariant Distinct(files, k, fold)
    {
      var patch := files[k];
      RefusesAt(sources, files, k, output, fold);
      StopsHere(sources, files, k, output, fold);
      if patch.path !in sources { return Err(MissingSource); }
      if exists p | p in output :: fold(p) == fold(patch.path) {
        return Err(Refused(InvalidPatch));
      }
      var result := ApplyFilePatch(sources[patch.path], patch);
      if result.Err? { return Err(Refused(result.error)); }
      KeepsWritten(sources, files, k, output, result.value, fold);
      output := output[patch.path := result.value];
    }
    AllWritten(sources, files, output, fold);
    return Ok(output);
  }

  /** The files below `k` were accepted under distinct names; file `k` is unknown, named like one of them, or
      refused, and that is the error. */
  predicate StopsAt(sources: Sources, files: seq<FilePatch>, fold: string -> string, k: nat, e: OpError) {
    && k < |files| && Distinct(files, k, fold) && (forall i | 0 <= i < k :: Accepts(sources, files[i]))
    && if files[k].path !in sources then e == MissingSource
       else if exists i | 0 <= i < k :: fold(files[i].path) == fold(files[k].path) then e == Refused(InvalidPatch)
       else
         var outcome := FileOutcome(sources[files[k].path], files[k]);
         outcome.Err? && e == Refused(outcome.error)
  }

  lemma {:induction false} StopsHere(sources: Sources, files: seq<FilePatch>, k: nat,
                                     output: map<string, Option<string>>, fold: string -> string)
    requires k < |files| && OutputOf(sources, files, k, output) && Distinct(files, k, fold)
    ensures var path := files[k].path;
            var clash := exists p | p in output :: fold(p) == fold(path);
            && (path !in sources ==> StopsAt(sources, files, fold, k, MissingSource))
            && (path in sources && clash ==> StopsAt(sources, files, fold, k, Refused(InvalidPatch)))
            && (path in sources && !clash && FileOutcome(sources[path], files[k]).Err? ==>
                  StopsAt(sources, files, fold, k, Refused(FileOutcome(sources[path], files[k]).error)))
  {
    hide FileOutcome;
    forall i | 0 <= i < k ensures Accepts(sources, files[i]) && files[i].path in output {
      assert Written(sources, files[i], output);
    }
    forall p | p in output ensures exists i | 0 <= i < k :: files[i].path == p {}
  }

  predicate Distinct(files: seq<FilePatch>, count: nat, fold: string -> string)
    requires count <= |files|
  {
    forall i, j | 0 <= i < j < count :: fold(files[i].path) != fold(files[j].path)
  }

  lemma {:induction false} NothingWritten(sources: Sources, files: seq<FilePatch>, fold: string -> string)
    ensures OutputOf(sources, files, 0, map[]) && Distinct(files, 0, fold)
  {
  }

  lemma {:induction false} RefusesAt(sources: Sources, files: seq<FilePatch>, k: nat,
                                     output: map<string, Option<string>>, fold: string -> string)
    requires k < |files| && OutputOf(sources, files, k, output)
    ensures !Accepts(sources, files[k]) || (exists p | p in output :: fold(p) == fold(files[k].path))
            ==> !AllAccept(sources, files, fold)
  {
    hide FileOutcome;
  }

  lemma {:induction false} AllWritten(sources: Sources, files: seq<FilePatch>, output: map<string, Option<string>>,
                                      fold: string -> string)
    requires OutputOf(sources, files, |files|, output) && Distinct(files, |files|, fold)
    ensures AllAccept(sources, files, fold)
  {
    hide FileOutcome;
    forall i | 0 <= i < |files| ensures Accepts(sources, files[i]) {
      assert Written(sources, files[i], output);
    }
  }

  lemma {:induction false} KeepsWritten(sources: Sources, files: seq<FilePatch>, k: nat,
                                        output: map<string, Option<string>>,
                                        content: Option<string>, fold: string -> string)
    requires k < |files| && OutputOf(sources, files, k, output) && Distinct(files, k, fold)
    requires files[k].path in sources && FileOutcome(sources[files[k].path], files[k]) == Ok(content)
    requires forall p | p in output :: fold(p) != fold(files[k].path)
    ensures OutputOf(sources, files, k + 1, output[files[k].path := content])
    ensures Distinct(files, k + 1, fold)
  {
    hide FileOutcome;
    var after := output[files[k].path := content];
    forall i | 0 <= i < k ensures fold(files[i].path) != fold(files[k].path) {
      assert Written(sources, files[i], output);
    }
    forall i | 0 <= i < k + 1 ensures Written(sources, files[i], after) {
      assert i < k ==> Written(sources, files[i], output);
    }
  }

  /** The file patches a list of operations stands for. */
  function PatchesOf(sources: Sources, ops: seq<FileOp>): Result<seq<FilePatch>, OpError> {
    if ops == [] then Ok([])
    else if ops[0].path !in sources then Err(MissingSource)
    else
      match PlanOf(ops[0], sources[ops[0].path])
      case Err(e) => Err(Refused(e))
      case Ok(plan) => AfterPatches([FilePatch(ops[0].path, ops[0].action, plan)], PatchesOf(sources, ops[1..]))
  }

  function AfterPatches(done: seq<FilePatch>, r: Result<seq<FilePatch>, OpError>): Result<seq<FilePatch>, OpError> {
    if r.Err? then r else Ok(done + r.value)
  }

  lemma {:induction false} AfterPatchesTwice(a: seq<FilePatch>, b: seq<FilePatch>, r: Result<seq<FilePatch>, OpError>)
    ensures AfterPatches(a, AfterPatches(b, r)) == AfterPatches(a + b, r)
    ensures AfterPatches([], r) == r
  {
    if r.Ok? {
      assert a + (b + r.value) == a + b + r.value;
      assert [] + r.value == r.value;
    }
  }

  method PlanOperation(op: FileOp, source: Option<string>) returns (r: Result<Plan, PatchError>)
    ensures r == PlanOf(op, source)
  {
    hide Resolve, ParsePatch, Readable, BareLines, CollapseCrlf;
    if op.plan.Some? { return Ok(op.plan.value); }
    if op.action == "update" {
      if source.None? { return Err(StalePreimage); }
      var resolved := NormalizeHunkHeaders(op.diff, source.value);
      if resolved.Err? { return Err(resolved.error); }
      ResolvedStartsHunk(op.diff, source.value);
      r := ParsePatchInput(resolved.value);
    } else if op.action == "add" {
      var lines := Lines(op.diff);
      if lines.Err? { return Err(lines.error); }
      return Ok(AddPlan(lines.value));
    } else if op.action == "delete" {
      if source.None? { return Err(StalePreimage); }
      var lines := Lines(source.value);
      if lines.Err? { return Err(lines.error); }
      return Ok(DeletePlan(source.value, lines.value));
    } else {
      return Err(InvalidPatch);
    }
  }

  /** Resolver output is always read by the hunk parser, never as a file patch. */
  lemma {:induction false} ResolvedStartsHunk(diff: string, source: string)
    requires Resolve(diff, source).Ok?
    ensures StartsHunk(Resolve(diff, source).value)
  {
    var ls, original := Lines(diff).value, Lines(source).value;
    var first := Sections(ls)[0];
    assert first.header == ls[0];
    LocatedStartsHunk(first, original);
    hide Locate, Readable, BareLines, CollapseCrlf, Coordinates;
    var resolved := ResolveSections(Sections(ls), original, 0, 0).value;
    var flat := Flat(resolved);
    assert flat[0] == resolved[0].header;
    assert StartsHunk(Join(flat) + "\n") by { JoinStarts(flat); }
  }

  lemma {:induction false} JoinStarts(lines: seq<string>)
    requires lines != [] && StartsHunk(lines[0])
    ensures StartsHunk(Join(lines) + "\n")
  {
  }

  lemma {:induction false} LocatedStartsHunk(s: Section, original: seq<string>)
    requires StartsHunk(s.header) && Locate(s, original, 0, 0).Ok?
    ensures StartsHunk(Locate(s, original, 0, 0).value.header)
  {
    hide Coordinates, Texts;
    var l := Locate(s, original, 0, 0).value;
    if ReadHeader(s.header).None? {
      CoordinatesReadBack(Coords(l.start, l.oldCount, l.start, l.newCount));
    }
  }

  method ApplyOperations(sources: Sources, ops: seq<FileOp>, fold: string -> string)
    returns (r: Result<map<string, Option<string>>, OpError>)
    ensures r.Ok? <==> PatchesOf(sources, ops).Ok? && AllAccept(sources, PatchesOf(sources, ops).value, fold)
    ensures r.Ok? ==> OutputOf(sources, PatchesOf(sources, ops).value, |PatchesOf(sources, ops).value|, r.value)
  {
    hide PlanOf, AllAccept, OutputOf;
    var files: seq<FilePatch> := [];
    AfterPatchesTwice([], [], PatchesOf(sources, ops));
    assert ops[0..] == ops;
    for k := 0 to |ops|
      invariant PatchesOf(sources, ops) == AfterPatches(files, PatchesOf(sources, ops[k..]))
    {
      var op := ops[k];
      assert ops[k..][0] == op && ops[k..][1..] == ops[k + 1..];
      if op.path !in sources { return Err(MissingSource); }
      var plan := PlanOperation(op, sources[op.path]);
      if plan.Err? { return Err(Refused(plan.error)); }
      AfterPatchesTwice(files, [FilePatch(op.path, op.action, plan.value)], PatchesOf(sources, ops[k + 1..]));
      files := files + [FilePatch(op.path, op.action, plan.value)];
    }
    assert files + [] == files;
    r := ApplyFilePatches(sources, files, fold);
  }

  /** Operations stand for patches of their files, one each and in order, under their own action; if one has
      no plan or names no known file, the first such one is the error. */
  lemma {:induction false} PatchesOfAre(sources: Sources, ops: seq<FileOp>)
    ensures var r := PatchesOf(sources, ops);
            && (r.Ok? <==> forall i | 0 <= i < |ops| :: HasPlan(sources, ops[i]))
            && (r.Ok? ==> |r.value| == |ops| && forall i | 0 <= i < |ops| :: StandsFor(sources, ops[i], r.value[i]))
            && (r.Err? ==> exists i | 0 <= i < |ops| ::
                  HaveNoPlan(sources, ops[i], r.error) && forall j | 0 <= j < i :: HasPlan(sources, ops[j]))
  {
    hide PlanOf;
    if ops != [] {
      var rest := ops[1..];
      PatchesOfAre(sources, rest);
      assert forall i | 0 <= i < |rest| :: rest[i] == ops[i + 1];
      assert forall i | 0 < i < |ops| :: ops[i] == rest[i - 1];
      var r, tail := PatchesOf(sources, ops), PatchesOf(sources, rest);
      if !HasPlan(sources, ops[0]) {
        assert HaveNoPlan(sources, ops[0], r.error);
      } else if tail.Err? {
        var i :| 0 <= i < |rest| && HaveNoPlan(sources, rest[i], tail.error)
                 && forall j | 0 <= j < i :: HasPlan(sources, rest[j]);
        assert HaveNoPlan(sources, ops[i + 1], r.error);
      }
    }
  }

  predicate HasPlan(sources: Sources, op: FileOp) {
    op.path in sources && PlanOf(op, sources[op.path]).Ok?
  }

  predicate HaveNoPlan(sources: Sources, op: FileOp, e: OpError) {
    if op.path !in sources then e == MissingSource
    else PlanOf(op, sources[op.path]).Err? && e == Refused(PlanOf(op, sources[op.path]).error)
  }

  predicate StandsFor(sources: Sources, op: FileOp, patch: FilePatch) {
    && patch.path == op.path && patch.action == op.action
    && op.path in sources && PlanOf(op, sources[op.path]) == Ok(patch.plan)
  }

  // ----- what the synthesised plans do

  lemma {:induction false} DeleteBlocks(lines: seq<string>, terminated: bool)
    ensures ValidKinds(DeleteLines(lines, terminated))
    ensures Block(New, DeleteLines(lines, terminated)) == [] && |Block(Old, DeleteLines(lines, terminated))| == |lines|
    ensures forall i | 0 <= i < |lines| ::
              Block(Old, DeleteLines(lines, terminated))[i] == lines[i] + if i == |lines| - 1 && !terminated then ""
                else "\n"
  {
    if lines != [] {
      DeleteBlocks(lines[1..], terminated);
      var line := BodyLine('-', lines[0], |lines| == 1 && !terminated);
      var rest := DeleteLines(lines[1..], terminated);
      assert ([line] + rest)[1..] == rest;
    }
  }

  lemma {:induction false} AddBlocks(lines: seq<string>)
    ensures Block(Old, AddLines(lines)) == [] && |Block(New, AddLines(lines))| == |lines|
    ensures forall i | 0 <= i < |lines| :: Block(New, AddLines(lines))[i] == lines[i] + "\n"
  {
    if lines != [] {
      AddBlocks(lines[1..]);
      var line := BodyLine('+', lines[0], false);
      assert ([line] + AddLines(lines[1..]))[1..] == AddLines(lines[1..]);
    }
  }

  /** One hunk that covers a whole file. */
  lemma {:induction false} WholeFileHunk(original: seq<string>, hunk: Hunk, c: Coords)
    requires Coordinates(hunk.header) == Ok(c) && c.start == 0 && c.newStart == 0 && c.oldCount == |original|
    requires Block(Old, hunk.lines) == original && |Block(New, hunk.lines)| == c.newCount
    ensures Refusal(original, 0, 0, [hunk]) == None && Splice(original, 0, 0, [hunk]) == Block(New, hunk.lines)
  {
    hide Coordinates, Block;
    assert [hunk][0..] == [hunk] && [hunk][1..] == [];
    assert original[0..] == original && original[0..0] == [] && original[|original|..] == [];
    HunkStep(original, 0, 0, [hunk], 0, c);
  }

  /** The plan synthesised for a deletion empties every readable source. */
  lemma {:induction false} DeletePlanEmpties(source: string)
    requires Readable(source)
    ensures Applied(source, DeletePlan(source, Lines(source).value)) == Ok("")
  {
    var x := CollapseCrlf(source);
    var lines, original := BareLines(x), KeepEnds(x);
    var terminated := source == "" || EndsWithNewline(source);
    BareAndKept(x);
    CollapseKeepsEnd(source);
    DeleteBlocks(lines, terminated);
    var c := Coords(0, |lines|, 0, 0);
    CoordinatesReadBack(c);
    var hunk := Hunk(HeaderOf(c), DeleteLines(lines, terminated));
    hide Coordinates, HeaderOf, Readable, CollapseCrlf, HasCrlf, KeepEnds, DeleteLines, Block, BareLines;
    assert Block(Old, hunk.lines) == original;
    WholeFileHunk(original, hunk, c);
  }

  /** The plan synthesised for an addition creates exactly its lines, each terminated. */
  lemma {:induction false} AddPlanCreates(lines: seq<string>)
    requires forall l | l in lines :: NoBreaks(l)
    ensures Applied("", AddPlan(lines)).Ok?
    ensures LinesKeepEnds(Applied("", AddPlan(lines)).value) == Ok(Block(New, AddLines(lines)))
  {
    AddBlocks(lines);
    var c := Coords(0, 0, 0, |lines|);
    CoordinatesReadBack(c);
    var hunk := Hunk(HeaderOf(c), AddLines(lines));
    assert KeepEnds("") == [] && Readable("");
    var output := Block(New, hunk.lines);
    forall i | 0 <= i < |output| ensures WholeLine(output[i]) {
      assert output[i][..|output[i]| - 1] == lines[i];
    }
    WholeFileHunk([], hunk, c);
    RenderReadsBack(output, LF);
    hide Coordinates, HeaderOf, Block, AddLines, Readable, LineSeq, Refusal, Splice;
    assert CollapseCrlf("") == "";
  }

  /** A deletion of a readable file succeeds and leaves no file, whatever its newlines. */
  lemma {:induction false} DeleteSucceeds(op: FileOp, source: string)
    requires op.action == "delete" && op.plan.None?
    ensures PlanOf(op, Some(source)).Ok? <==> Readable(source)
    ensures Readable(source) ==>
              FileOutcome(Some(source), FilePatch(op.path, op.action, PlanOf(op, Some(source)).value)) == Ok(None)
  {
    hide Readable, BareLines, CollapseCrlf, Applied, DeletePlan, Resolve, ParsePatch;
    if Readable(source) {
      DeletePlanEmpties(source);
    }
  }

  /** An addition without a plan of its own succeeds exactly for a readable text, and writes its lines, each
      terminated. */
  lemma {:induction false} AddSucceeds(op: FileOp)
    requires op.action == "add" && op.plan.None?
    ensures PlanOf(op, None).Ok? <==> Readable(op.diff)
    ensures Readable(op.diff) ==>
              var r := FileOutcome(None, FilePatch(op.path, op.action, PlanOf(op, None).value));
              && r.Ok? && r.value.Some?
              && LinesKeepEnds(r.value.value) == Ok(TerminatedLines(Lines(op.diff).value))
  {
    LiteralActions();
    hide BareLines, CollapseCrlf, Applied, AddPlan, Resolve, ParsePatch, LinesKeepEnds, Readable;
    if Readable(op.diff) {
      var lines := Lines(op.diff).value;
      CleanLinesOf(op.diff);
      CleanLinesAre(lines);
      AddPlanCreates(lines);
      AddBlocks(lines);
      hide Block, AddLines;
      assert Block(New, AddLines(lines)) == TerminatedLines(lines);
    }
  }

  function TerminatedLines(lines: seq<string>): seq<string> {
    seq(|lines|, i requires 0 <= i < |lines| => lines[i] + "\n")
  }

  lemma {:induction false} CleanLinesAre(lines: seq<string>)
    requires CleanLines(lines)
    ensures forall l | l in lines :: NoBreaks(l)
  {
  }

  /** A bare update of a known file without a plan of its own has a plan exactly when it resolves, and then
      succeeds exactly when the file ends in a newline or no hunk reaches its last line. */
  lemma {:induction false} UpdateSucceeds(op: FileOp, source: string)
    requires op.action == "update" && op.plan.None?
    requires Lines(op.diff).Ok? && BareUpdate(Lines(op.diff).value)
    ensures PlanOf(op, None) == Err(StalePreimage)
    ensures PlanOf(op, Some(source)).Ok? <==> Resolve(op.diff, source).Ok?
    ensures PlanOf(op, Some(source)).Ok? ==>
              var plan := PlanOf(op, Some(source)).value;
              && Lines(source).Ok? && plan.Diff? && Parsed(plan)
              && (FileOutcome(Some(source), FilePatch(op.path, op.action, plan)).Ok? <==>
                  EndsWithNewline(source) || OldEnd(plan.hunks, 0) < |Lines(source).value|)
  {
    hide Lines, Applied, Resolve, ParsePatch, BareUpdate, ValidHunks, CleanHunks, OldEnd, EndsWithNewline;
    if Resolve(op.diff, source).Ok? { ResolvedUpdatesApply(op.diff, source); }
    LiteralActions();
  }

  lemma {:induction false} LiteralActions()
    ensures "update" != "add" && "update" != "delete" && "add" != "delete"
  {
    assert "update"[0] == 'u' && "delete"[0] == 'd' && "add"[0] == 'a';
  }
}
