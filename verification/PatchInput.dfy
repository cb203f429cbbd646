/** The input of the patch tool: hunks alone, the diff of one file, or one exact fragment to replace. */
module PatchInput {
  import opened Results
  import opened PatchText
  import opened PatchHunks
  import opened PatchOperations
  import opened PatchUnified
  import opened PatchUnifiedLaws
  import opened PatchEnvelope
  import PatchEnvelopeLaws

  /** The arguments of the tool; absent texts are empty or None. */
  datatype Input = Input(diff: string, path: string, oldText: Option<string>, newText: Option<string>)

  function PlanOfDiff(files: seq<FilePatch>, path: string): Result<Plan, PatchError> {
    if |files| != 1 || files[0].action != "update" then Err(InvalidPatch)
    else if path != "" && Slashed(path) != files[0].path then Err(InvalidPatch)
    else Ok(files[0].plan)
  }

  function PlanOfInput(input: Input, fold: string -> string): Result<Plan, PatchError> {
    if input.diff != "" then
      if StartsHunk(input.diff) then ParsePatch(input.diff)
      else
        match UnifiedFiles(input.diff, fold)
        case Err(e) => Err(e)
        case Ok(files) => PlanOfDiff(files, input.path)
    else if input.oldText.Some? && input.oldText.value != "" && input.newText.Some? then
      Ok(Replacement(input.oldText.value, input.newText.value))
    else Err(InvalidPatch)
  }

  method ParseInput(input: Input, fold: string -> string) returns (r: Result<Plan, PatchError>)
    ensures r == PlanOfInput(input, fold)
  {
    hide ParsePatch, UnifiedFiles, Slashed;
    if input.diff != "" {
      if StartsHunk(input.diff) {
        r := ParsePatchInput(input.diff);
        return;
      }
      var files := ParseUnifiedPatch(input.diff, fold);
      if files.Err? { return Err(files.error); }
      if |files.value| != 1 || files.value[0].action != "update" { return Err(InvalidPatch); }
      if input.path != "" && Slashed(input.path) != files.value[0].path { return Err(InvalidPatch); }
      return Ok(files.value[0].plan);
    }
    if input.oldText.Some? && input.oldText.value != "" && input.newText.Some? {
      return Ok(Replacement(input.oldText.value, input.newText.value));
    }
    return Err(InvalidPatch);
  }

  // ----- what is accepted

  /** The diff is hunks and nothing else. */
  ghost predicate IsHunksOnly(diff: string, plan: Plan) {
    && StartsHunk(diff) && Lines(diff).Ok?
    && plan.Diff? && ValidHunks(plan.hunks) && Lines(diff).value == PrintHunks(plan.hunks)
       && plan.newline == Style(diff)
  }

  /** The path names the file, up to backslashes for slashes; no path names any. */
  predicate Names(path: string, file: string) {
    path == ""
    || (|path| == |file| && forall i | 0 <= i < |path| :: file[i] == if path[i] == '\\' then '/' else path[i])
  }

  /** The diff updates one file, the requested one, and nothing else. */
  ghost predicate IsUpdateOf(diff: string, path: string, plan: Plan, fold: string -> string) {
    && !StartsHunk(diff) && Lines(diff).Ok?
    && exists file ::
      IsDiffOf(Lines(diff).value, [FilePatch(file, "update", plan)], {}, fold, Style(diff)) && Names(path, file)
  }

  lemma {:induction false} HunksOnly(diff: string, plan: Plan)
    requires StartsHunk(diff)
    ensures ParsePatch(diff) == Ok(plan) <==> IsHunksOnly(diff, plan)
  {
    hide Lines, ParseHunks, PrintHunks, ValidHunks, Style, StartsHunk;
    if Lines(diff).Ok? {
      var lines := Lines(diff).value;
      if plan.Diff? { PatchHunks.ParseIsInverseOfPrint(lines, plan.hunks); }
    }
  }

  lemma {:induction false} NamesIs(path: string, file: string)
    ensures path == "" || Slashed(path) == file <==> Names(path, file)
  {
    hide Slashed;
    PatchEnvelopeLaws.SlashedIs(path, file);
  }

  lemma {:induction false} OneUpdate(diff: string, path: string, plan: Plan, fold: string -> string)
    requires diff != "" && !StartsHunk(diff)
    ensures UnifiedFiles(diff, fold).Ok? && PlanOfDiff(UnifiedFiles(diff, fold).value, path) == Ok(plan)
            <==> IsUpdateOf(diff, path, plan, fold)
  {
    hide Lines, UnifiedFiles, IsDiffOf, Style, StartsHunk, Slashed, Names;
    if UnifiedFiles(diff, fold).Ok? && PlanOfDiff(UnifiedFiles(diff, fold).value, path) == Ok(plan) {
      var files := UnifiedFiles(diff, fold).value;
      DiffsAreRead(diff, fold, files);
      NamesIs(path, files[0].path);
      assert files == [FilePatch(files[0].path, "update", plan)];
    }
    if IsUpdateOf(diff, path, plan, fold) {
      var file :| IsDiffOf(Lines(diff).value, [FilePatch(file, "update", plan)], {}, fold, Style(diff))
        && Names(path, file);
      DiffsAreRead(diff, fold, [FilePatch(file, "update", plan)]);
      NamesIs(path, file);
    }
  }

  /** Exactly which inputs stand for a plan, and for which: a diff that is the print of valid hunks, or that
      updates the one requested file; or, without a diff, a fragment that is not empty and its substitute. */
  lemma {:induction false} InputsAreRead(input: Input, fold: string -> string, plan: Plan)
    ensures PlanOfInput(input, fold) == Ok(plan)
            <==> if input.diff != "" then
              IsHunksOnly(input.diff, plan) || IsUpdateOf(input.diff, input.path, plan, fold)
            else
              plan.Replacement? && plan.oldText != ""
              && input.oldText == Some(plan.oldText) && input.newText == Some(plan.newText)
  {
    hide UnifiedFiles, ParsePatch, StartsHunk, PlanOfDiff, Lines, PrintHunks, ValidHunks, IsDiffOf, Style, Names;
    if input.diff != "" {
      if StartsHunk(input.diff) {
        HunksOnly(input.diff, plan);
      } else {
        OneUpdate(input.diff, input.path, plan, fold);
      }
    }
  }
}
