# FixLoop context core: a Dafny model and its proofs

FixLoop is an LLM agent runtime. This project models the self-contained cores under
`agent_runtime/` that decide what is written to files, what of a history is sent to a model, and
what is charged for it, and proves what those cores are for. `dafny verify dfyconfig.toml` checks
everything.

## How it is laid out

Every core comes in the same three layers.

1. Functions on values say what the code computes, with the same branches, refusals and constants.
2. Methods with loops, and classes where the code updates fields, follow the statements of the code.
   Each is proved equal to its function.
3. Lemmas about the functions state the properties, for all inputs, all runs or all interleavings.

| core | modules |
|---|---|
| text patch engine (unified hunks, "Diff -u or -U Output Format" of POSIX.1-2008) | `PatchText`, `PatchHeader`, `PatchHeaderLaws`, `PatchHunks`, `PatchApply`, `PatchLaws`, `PatchRefusals`, `PatchReplacement`, `PatchResolve`, `PatchResolveLaws`, `PatchPlacement`, `PatchOperations`, `PatchUnified`, `PatchPreambles`, `PatchUnifiedLaws`, `PatchInput`, `PatchFences`, `PatchHeredocs`, `PatchEnvelope`, `PatchEnvelopeLaws`, `PatchReadings`, `PatchWitnesses` |
| history compression | `HistoryItems`, `Interactions`, `InteractionLaws`, `InteractionPairs`, `InteractionCuts`, `Rewriting`, `ToolTruncation`, `Compression`, `CompressionLaws`, `StageRules`, `StageLaws`, `AutoCompact`, `AutoCompactLaws`, `AutoCompactExact`, `PinnedGroupsSurvive`, `RecordsStaySilent`, `Pipeline`, `PipelineItems` |
| section allocator and message tail | `Totals`, `UnitPacker`, `PackerOrder`, `ElasticPool`, `ElasticOrder`, `SectionFiller`, `FillerRuns`, `NativeTail`, `NativeTailLaws` |
| budget ledger | `BudgetLedger`, `BudgetLaws`, `BudgetMerges`, `BudgetBounds`, `BudgetManager`, `BudgetDecisions`, `ModelCalls`, `CallInterleavings`, `CostOvershoot` |
| concurrency | `CancellationToken`, `BlockingScope`, `ReadPermits` |
| selection and scanning | `Sorting`, `ContextSelection`, `ContextDrops`, `JsonRecovery`, `JsonGroups`, `JsonOutcomes`, `JsonText` |
| shared | `Results`, `Sequences` |

## Where a promise fails, and exactly when

Some properties one would expect are false of the code in a corner. The code is kept as it is and
the exact condition is proved.

* Undoing a patch restores the text if and only if no no-newline marker sits on an empty line: such
  a line is written as nothing and cannot be found again (`PatchLaws.PatchesInvert`; the input that
  fails is `PatchWitnesses.EmptyMarkedLineCannotBeUndone`).
* A resolved update applies if and only if the file ends in a newline or no hunk reaches its last
  line: the resolver compares lines without terminators, the application with them
  (`PatchResolveLaws.ResolvedUpdatesApply`, `PatchWitnesses.UnterminatedLineDoesNotApply`).
* A replacement is meant to need exactly one match, but occurrences are counted without overlaps. The
  accepted fragment is unique if and only if it does not occur again at an overlapping position, and
  the count is reliable in every text if and only if no proper beginning of the fragment is also its
  end (`PatchLaws.ReplacementSplices`, `PatchLaws.CountIsReliableIffBorderless`,
  `PatchLaws.AmbiguousEditIsAccepted`).
* Each subscribed callback runs once, plus once for every cancel after the drain
  (`CancellationToken.RunsOncePerCancel`, `CancellationToken.CancelAfterDrainRunsAgain`).
* The thread-local lease outlives its context, so it can be borrowed when its slot is back already.
  Every lease gives its slot back exactly once, at every moment of a run, if and only if every borrow
  is from a live lease (`ReadPermits.SlotsReturnOnceExactly`, `ReadPermits.DeadBorrowReturnsTwice`,
  `ReadPermits.StaleLeaseCanBeBorrowed`).
* Merging durable calls lowers a usage if and only if the calls it adds report less in sum than their
  scopes already held (`BudgetMerges.MergeRefundsExactly`; a worker scope under the merged key is
  such a case, `BudgetMerges.MergeCanRefund`).
* A settlement of an unknown call is refused only after its costs were charged; it leaves a usage alone
  if and only if it reports what the scope already held (`BudgetLaws.SettlementCharges`,
  `BudgetLaws.UnknownCallIsCharged`).
* Of calls made one after another, the next one is stopped for its cost if and only if the answered
  ones have cost more than a positive limit, so usage equal to the limit still admits a call
  (`ModelCalls.StoppedOnceOverspent`, `ModelCalls.SpentLimitAdmits`).
* Total tokens equal prompt plus output tokens if and only if the imbalances of direct charges and of
  the scopes cancel; model calls never cause any (`BudgetBounds.TokensBalanceExactly`,
  `BudgetBounds.DirectTotalIsOutOfBalance`).
* A repeated section name makes the filler's total exceed its recorded counts by exactly the counts
  that were overwritten (`FillerRuns.FillAll`, `FillerRuns.RepeatedNameIsLost`).
* A body between fences is read as itself if and only if no line of it closes the fence and the white
  space it begins with reaches over no line end (`PatchFences.FencesAreTransparent`,
  `PatchReadings.ClosingLineCuts`, `PatchReadings.BlankLineIsLost`).
* A body between heredoc lines is read with CRLF collapsed, so as itself if and only if it has none. For
  the reading as a patch this matters exactly when it makes an unreadable envelope readable, or when
  a unified diff with CRLF is accepted (`PatchHeredocs.HeredocsCollapse`,
  `PatchReadings.HeredocReading`, `PatchReadings.MixedNewlinesBecomeReadable`).

## Reading the model

Tokenizers, token counts, text rendering and case folding are function parameters with only the
properties the code relies on: trimming to a non-negative limit never exceeds it, and the empty text
costs nothing. Where a property needs more, it is a named predicate in its `requires`: `Growing`
(adding a unit never lowers a count), `Exact` (a fitter uses its limit up), `Lends`. The summariser
of the last compression stage is an arbitrary outcome or failure. Amounts of the ledger are integers
and quotas exact floors. Python dictionaries that are only looked up and summed are maps; where
their order matters (journals, envelopes, candidates) they are sequences.

Operations that run under a lock are single steps; a run is any sequence of steps, so a statement
about all runs covers all interleavings of threads.

## Model

| member | source | states |
|---|---|---|
| PatchText.RenderReadsBack | agent_runtime/patch_engine.py:53-62 | lines rendered in one newline style form a text the engine accepts, and it reads back exactly those lines in that style |
| PatchText.ReadableIsRendered | agent_runtime/patch_engine.py:53-62 | every accepted text is its own lines in its own style, so accepted texts and line lists are two forms of the same thing |
| PatchText.BareAndKept | agent_runtime/patch_engine.py:53-62 | the reading with and the reading without terminators have the same lines; only a last line can be unterminated |
| PatchText.JoinedLinesReadBack | agent_runtime/patch_engine.py:428-428 | lines joined by newlines and closed by one, as the resolver writes them, are read back line by line |
| PatchHeader.CoordinatesReadBack | agent_runtime/patch_engine.py:65-72 | every pair of ranges has a header that is read back as the same ranges, for all sizes including empty ranges and the off-by-one convention for them |
| PatchHeaderLaws.HeadersAreSpelled | agent_runtime/patch_engine.py:49-69 | a line is read as four numbers if and only if it spells them: both signs and ranges in their places, an omitted count standing for one, anything without a line end behind the closing mark |
| PatchHeaderLaws.OmittedCountsAreOne | agent_runtime/patch_engine.py:49-72 | for all numbers and all texts behind the closing mark, the forms with one or both counts left out are read with one line on that side |
| PatchHunks.ParseBodyAt | agent_runtime/patch_engine.py:75-98 | the loop over one hunk body takes exactly the lines the recursive parser takes, with every refusal |
| PatchHunks.ParseHunksAt | agent_runtime/patch_engine.py:75-98 | the loop over hunks returns the hunks of the recursive parser and the index behind the last line it used |
| PatchHunks.ParsePatchInput | agent_runtime/patch_engine.py:163-171 | a diff that starts with a hunk is accepted only if the hunks use every line of it |
| PatchHunks.ParseIsInverseOfPrint | agent_runtime/patch_engine.py:75-98 | a list of lines parses to some hunks with nothing left over if and only if it is the print of those hunks and they carry their declared counts |
| PatchHunks.ParsePrintedPatch | agent_runtime/patch_engine.py:163-171 | printing valid hunks as a patch text in either newline style and parsing it gives the same plan back |
| PatchHunks.ParsedPlansAreValid | agent_runtime/patch_engine.py:228-229 | every parsed hunk carries exactly its declared counts, so the count mismatch check cannot fire for a parsed plan |
| PatchApply.ApplyBody | agent_runtime/patch_engine.py:216-227 | the line loop of one hunk succeeds exactly when the old block stands at the cursor, and then moves past it and appends the new block |
| PatchApply.SpliceHunks | agent_runtime/patch_engine.py:208-230 | the hunk loop refuses with the first refusal of the specification, and otherwise returns the splice of all blocks |
| PatchApply.ApplyText | agent_runtime/patch_engine.py:186-233 | the whole application equals the specification, refusals and newline style included |
| PatchLaws.SpliceIsAlignment | agent_runtime/patch_engine.py:208-230 | hunks are accepted and write a file if and only if both files line up: equal outside the hunks, old blocks in one and new blocks in the other |
| PatchLaws.AppliesIffAligned | agent_runtime/patch_engine.py:186-233 | a diff applies to a text exactly when some output lines up with it, and the result is that output in the style of the text |
| PatchRefusals.RefusedExactly | agent_runtime/patch_engine.py:186-233 | a diff that does not apply is refused by its first hunk that does not fit: stale if it overlaps, lies outside the file or its old block is not there, invalid if its header, new coordinates or sizes are wrong; when all fit, exactly for an unterminated line in front of another |
| PatchLaws.SpliceGrows | agent_runtime/patch_engine.py:208-230 | the number of lines changes by exactly the sum of new minus old counts |
| PatchLaws.BlocksSitWhereAnnounced | agent_runtime/patch_engine.py:208-230 | old and new block of every hunk stand at the positions its header announces, in the old and in the new file |
| PatchLaws.AlignmentIsSymmetric | agent_runtime/patch_engine.py:186-233 | a plan takes one file to the other exactly when the reversed plan takes it back |
| PatchLaws.ResultIsReadable | agent_runtime/patch_engine.py:230-233 | the result of every parsed plan that applies is again an accepted text, and its newlines are of the style of the original or, if that has none, of the patch |
| PatchLaws.ResultReadsBack | agent_runtime/patch_engine.py:230-233 | as long as no marked line is empty, the result reads back line by line as the splice |
| PatchWitnesses.EmptyMarkedLineCannotBeUndone | agent_runtime/patch_engine.py:216-233 | a parsed plan that adds one empty line with a no-newline marker applies to the empty text, and undoing it does not give the empty text back |
| PatchLaws.PatchesInvert | agent_runtime/patch_engine.py:186-233 | undoing an accepted parsed plan restores the text character for character if and only if no no-newline marker sits on an empty line |
| PatchLaws.ReplacementSplices | agent_runtime/patch_engine.py:190-199 | an accepted replacement rewrites the earliest occurrence of the fragment and nothing else; every other occurrence overlaps it, so the fragment is unique if and only if it does not occur again at an overlapping position |
| PatchLaws.CountIsReliableIffBorderless | agent_runtime/patch_engine.py:190-195 | counting exactly one occurrence means uniqueness in every text if and only if no proper beginning of the fragment is also its end |
| PatchLaws.AmbiguousEditIsAccepted | agent_runtime/patch_engine.py:190-195 | an accepted edit whose fragment occurs twice |
| PatchReplacement.ReplacementsAreAccepted | agent_runtime/patch_engine.py:186-199 | a replacement gives a result if and only if there is no NUL, the fragment is not empty and stands once except in overlap with its first place, and text and result are readable; it is stale if and only if it is the fragment that is missing or repeated |
| PatchResolve.NormalizeHunkHeaders | agent_runtime/patch_engine.py:393-428 | the resolver loop equals the section-wise specification, bare and numeric headers mixed, with every refusal |
| PatchPlacement.UpdatesResolveExactly | agent_runtime/patch_engine.py:393-428 | an update resolves to an output if and only if each hunk lands, in turn: a numeric one where its header says, a bare one at the one position behind the hunks before it at which its old texts stand |
| PatchPlacement.UpdatesAreRefusedExactly | agent_runtime/patch_engine.py:393-428 | it is refused with an error if and only if some hunk behind hunks that land goes nowhere: an unreadable header or empty old texts are invalid, old texts that stand nowhere or at a second position are stale |
| PatchPlacement.BareUpdatesResolveExactly | agent_runtime/patch_engine.py:393-428 | an update with bare headers resolves if and only if the old texts of each hunk are not empty and stand at exactly one position at or behind the end of the hunk before it |
| PatchPlacement.ResolvedCoordinatesArePositions | agent_runtime/patch_engine.py:417-426 | the old coordinates written for a bare hunk are that position and the number of its old texts |
| PatchPlacement.SecondPositionIsStale | agent_runtime/patch_engine.py:417-421 | a bare hunk whose old texts stand at two positions is refused as stale |
| PatchResolveLaws.ResolvedUpdatesApply | agent_runtime/patch_engine.py:393-428 | whenever an update with bare headers resolves, the result parses; it applies if and only if the file ends in a newline or no hunk reaches its last line |
| PatchWitnesses.UnterminatedLineDoesNotApply | agent_runtime/patch_engine.py:393-428 | for every text that is one non-empty line without a newline, the update that deletes the line resolves and parses but does not apply |
| PatchOperations.ApplyFilePatch | agent_runtime/patch_engine.py:241-249 | one file patch succeeds if and only if the file exists exactly when the action is not an addition, the plan applies, and a deletion leaves nothing; then a deletion leaves no file and anything else the applied text |
| PatchOperations.ApplyFilePatches | agent_runtime/patch_engine.py:236-250 | the whole list succeeds if and only if every file accepts its patch and no two paths fold together; then the output names exactly the patched files with their outcomes; otherwise the first file that is unknown, named twice or refused gives the error |
| PatchOperations.ApplyOperations | agent_runtime/patch_engine.py:253-287 | all operations succeed together or nothing is returned, with the exact condition |
| PatchOperations.PatchesOfAre | agent_runtime/patch_engine.py:253-284 | operations stand for patches of their own files and actions, one each and in order, if and only if each names a known file and has a plan; otherwise the first that does not gives the error |
| PatchOperations.UpdateSucceeds | agent_runtime/patch_engine.py:258-264 | an update with bare headers has a plan if and only if it resolves against its file, and then succeeds if and only if the file ends in a newline or no hunk reaches its last line |
| PatchOperations.AddSucceeds | agent_runtime/patch_engine.py:265-268 | an addition succeeds if and only if its text is readable, and writes exactly the lines of that text, each terminated |
| PatchOperations.ResolvedStartsHunk | agent_runtime/patch_engine.py:264-264 | resolver output is always read by the hunk parser, never as a file patch |
| PatchOperations.DeletePlanEmpties | agent_runtime/patch_engine.py:269-283 | the plan synthesised for a deletion empties every accepted source, whatever its newlines and final line |
| PatchOperations.DeleteSucceeds | agent_runtime/patch_engine.py:269-283 | a deletion of a file succeeds exactly when the file is an accepted text, and leaves no file |
| PatchOperations.AddPlanCreates | agent_runtime/patch_engine.py:265-268 | the plan synthesised for an addition creates exactly its lines, each terminated |
| PatchEnvelope.ReadEntries | agent_runtime/apply_patch_format.py:66-92 | the loop over the envelope returns the entries of the recursive reading, with every refusal |
| PatchFences.FencedBlockIs | agent_runtime/apply_patch_format.py:23-36 | what any fenced block is read as: its body from behind the last line end of the white space it begins with up to its first line that closes a fence, without line ends around it; line ends around the block and white space beside the fences do not matter |
| PatchFences.FencesAreTransparent | agent_runtime/apply_patch_format.py:23-36 | a body that neither begins nor ends with a line end is read from between fences as itself if and only if no line of it closes the fence and the white space it begins with reaches over no line end |
| PatchReadings.ClosingLineCuts | agent_runtime/apply_patch_format.py:23-36 | a body with a fence-closing line is read up to that line |
| PatchReadings.BlankLineIsLost | agent_runtime/apply_patch_format.py:23-36 | every patch that begins visibly and has no fence-closing line is, with a blank line in front of it, refused alone and read as the patch from between fences |
| PatchHeredocs.HeredocIs | agent_runtime/apply_patch_format.py:37-48 | what any heredoc is read as: its body with CRLF collapsed, without line ends around it; white space beside the closing word and line ends around the whole do not matter |
| PatchHeredocs.HeredocsCollapse | agent_runtime/apply_patch_format.py:37-48 | a body that neither begins nor ends with a line end is read from between heredoc lines with CRLF collapsed; as itself if and only if it has no CRLF |
| PatchEnvelope.ParseApplyPatchText | agent_runtime/apply_patch_format.py:51-95 | the text without its fences is read as a unified diff when it begins like one, and as an envelope otherwise; in both cases as the operations of the specification, or refused with its refusal |
| PatchReadings.HeredocReading | agent_runtime/apply_patch_format.py:37-95 | a patch that begins with neither mark nor line end is read from between heredoc lines as it is alone if and only if: for an envelope, it is readable or stays unreadable when CRLF is collapsed; for a unified diff, it has no CRLF or is refused without it |
| PatchReadings.MixedNewlinesBecomeReadable | agent_runtime/apply_patch_format.py:37-95 | every envelope body with both newline styles is unreadable alone and not unreadable between heredoc lines |
| PatchReadings.FencedReading | agent_runtime/apply_patch_format.py:23-95 | a patch that begins with neither mark nor line end is read from between fences as it is alone when no line of it closes the fence and it begins with no blank line |
| PatchUnified.ParseUnifiedPatch | agent_runtime/patch_engine.py:114-160 | the loops over files, preambles and hunks equal the specification, with every refusal |
| PatchUnified.AcceptedFilesAreProper | agent_runtime/patch_engine.py:101-160 | every accepted diff consists of files with safe paths, no two of which fold together, valid hunks, and at least one hunk wherever a file is updated |
| PatchUnified.PrintedFilesAreParsed | agent_runtime/patch_engine.py:101-160 | such files, printed with plain headers, are parsed back as they are |
| PatchUnified.AcceptedHasNormalForm | agent_runtime/patch_engine.py:101-160 | so every accepted diff has a normal form, without preambles and timestamps, that is parsed to the same files |
| PatchUnifiedLaws.DiffsAreRead | agent_runtime/patch_engine.py:114-160 | a text is read as some files if and only if its lines are, file by file, git lines in any order that do not disagree with the action, two header lines that show it, and the print of valid hunks, with no two names that fold together |
| PatchUnifiedLaws.HeaderIsRead | agent_runtime/patch_engine.py:101-112 | a header line gives a path if and only if it shows it: behind the mark with or without its prefix, a time stamp behind a tab ignored, or the null path |
| PatchUnifiedLaws.SafePathsStayInside | agent_runtime/patch_engine.py:101-112 | a path is accepted if and only if it is not empty, begins with neither slash nor quote, has no backslash and no colon, and no segment between slashes is empty, a dot or two dots |
| PatchPreambles.GitLinesOnlyCheckTheMode | agent_runtime/patch_engine.py:122-147 | git lines in front of a file change nothing about its reading, except that it is refused when two of them state a mode or one states the mode of another action |
| PatchInput.ParseInput | agent_runtime/patch_engine.py:163-183 | the whole input of the patch tool, in all three forms, is read as the plan of the specification |
| PatchInput.InputsAreRead | agent_runtime/patch_engine.py:163-183 | an input stands for a plan if and only if its diff is the print of valid hunks, or updates the one requested file and nothing else, or, without a diff, it names a fragment that is not empty and its substitute |
| PatchEnvelope.ParseIsInverseOfPrint | agent_runtime/apply_patch_format.py:66-95 | the lines between the markers are accepted as some entries if and only if they are the print of those entries and the entries are proper: distinct folded paths, content where it belongs |
| PatchEnvelopeLaws.EnvelopesAreRead | agent_runtime/apply_patch_format.py:51-95 | a text in the envelope format is read as some operations if and only if its lines are the two marker lines around the print of at least one proper entry, and the operations are, in order, theirs: action, path with forward slashes, terminated content |
| PatchEnvelopeLaws.FirstWrongEntryIsRefused | agent_runtime/apply_patch_format.py:66-91 | behind proper entries the first wrong one is reported, as what it is: no file named, a path used before, a deletion with content, an update without, or an addition with a line that is none |
| PatchEnvelopeLaws.DiffsStandForFiles | agent_runtime/apply_patch_format.py:55-64 | a text that begins like a unified diff stands for its files, each with its plan, or is refused with the reason of the diff |
| PatchEnvelope.DiffReadsBack | agent_runtime/apply_patch_format.py:92-92 | the patch engine reads the diff of an entry back as exactly its content lines |
| PatchEnvelope.OperationsNameDistinctFiles | agent_runtime/apply_patch_format.py:51-95 | operations of an accepted patch, envelope or unified diff, never name one file twice, so the duplicate check of the application cannot fire on them |
| Interactions.InteractionGroups | agent_runtime/history_summary.py:111-168 | the grouping loop equals the scan specification, refusals included |
| InteractionPairs.GroupsExactlyWhenPaired | agent_runtime/history_summary.py:111-168 | a history is grouped if and only if call ids are non-empty and globally unique and each is answered exactly once by a later item |
| InteractionPairs.AnsweredOnceLater | agent_runtime/history_summary.py:111-168 | in a paired history every call has exactly one answering item, behind it |
| InteractionLaws.AcceptedIsClosed | agent_runtime/history_summary.py:111-168 | acceptance depends only on how calls and results pair up, not on where groups are cut |
| InteractionLaws.GroupsAreInteractions | agent_runtime/history_summary.py:111-168 | groups are non-empty, concatenate to the history, and each holds both ends of every identified call it mentions |
| InteractionCuts.GroupsEndExactlyAtCuts | agent_runtime/history_summary.py:111-168 | groups end exactly where every identified call so far is answered and either a summary stands in front, or no named call still waits for an answering item and a summary or a new turn of the user follows, stated for each position without the scan |
| Rewriting.RewriteOldest | agent_runtime/compression_pipeline.py:447-462 | the rewriting loop terminates because a marker is never eligible again, and replaces exactly the eligible entries below the least cut that is small enough |
| Compression.FilterHistory | agent_runtime/tier_policy.py:130-175 | the item filter keeps exactly the items its rules keep |
| Compression.L0TierGuard | agent_runtime/compression_pipeline.py:361-387 | the first stage equals its specification: call groups whole, call-free groups filtered item by item |
| Compression.L1BudgetReduction | agent_runtime/compression_pipeline.py:390-413 | the content of a plain tool item is replaced by its truncation, and nothing else changes |
| ToolTruncation.TruncateToolContent | agent_runtime/compression_pipeline.py:75-119 | the partition and the greedy loop equal the truncation the laws are about; the second trimming of a joined text is never reached |
| ToolTruncation.TruncationShortens | agent_runtime/compression_pipeline.py:75-119 | a content within its limit stays; a longer one becomes the most of its lines that fit, important ones first and each kind in order, and a note; it comes out within the limit, shorter, and fixed under a second truncation whenever the note and the least body fit the limit |
| Compression.ProtectedTurnIndices | agent_runtime/compression_pipeline.py:236-274 | the backwards loop returns exactly the tail and current turns |
| Compression.L2Snip | agent_runtime/compression_pipeline.py:416-474 | the snip loop equals its specification |
| Compression.FlatIndexToTurn | agent_runtime/compression_pipeline.py:284-291 | the turn returned is the one in which the item at the flat index stands, at the position the lengths of the turns before it leave; behind all turns it is the last one |
| Compression.AssignToolRefIds | agent_runtime/compression_pipeline.py:298-305 | tool items that are no snip markers are numbered from one, in order |
| Compression.L3Microcompact | agent_runtime/compression_pipeline.py:477-555 | the micro-compaction loop equals its specification |
| Compression.L4Collapse | agent_runtime/compression_pipeline.py:558-625 | the collapse loop equals its specification |
| CompressionLaws.TailIsShortest | agent_runtime/compression_pipeline.py:236-274 | the protected tail is the shortest run of last turns that reaches the allowance |
| CompressionLaws.SnipRewritesOldest | agent_runtime/compression_pipeline.py:447-462 | each turn is the original or a one-item marker, protected and current turns are untouched, the loop stops only under the threshold or with nothing eligible left, and no shorter rewriting would do |
| CompressionLaws.CollapseRewritesOldest | agent_runtime/compression_pipeline.py:590-611 | the same for the collapse loop |
| CompressionLaws.TierGuardKeepsPairs | agent_runtime/compression_pipeline.py:361-387 | L0 never refuses an accepted history and its item-level drops never separate a call from its result |
| CompressionLaws.TruncateKeepsPairs | agent_runtime/compression_pipeline.py:390-413 | L1 output is accepted exactly when its input is |
| CompressionLaws.SnipKeepsPairs | agent_runtime/compression_pipeline.py:416-474 | L2 never refuses an accepted history and keeps pairs together |
| CompressionLaws.MicrocompactStubsOldest | agent_runtime/compression_pipeline.py:477-555 | above the threshold L3 numbers the tool items and stubs the oldest eligible ones: everything in protected turns, state records, answers to identified calls and items with error words stay, it stops only under the threshold or with nothing left to stub, and no shorter run of oldest items would do |
| CompressionLaws.MicrocompactKeepsPairs | agent_runtime/compression_pipeline.py:477-555 | L3 never refuses an accepted history and keeps pairs together |
| CompressionLaws.CollapseKeepsPairs | agent_runtime/compression_pipeline.py:558-625 | L4 never refuses an accepted history and keeps pairs together |
| StageRules.KeepRule | agent_runtime/tier_policy.py:86-175 | an item is kept by L0 if and only if it is no refused tool answer and is either kept anyway (pinned role, field, summary, error word, marker, current turn) or no noise |
| StageRules.SnipRule | agent_runtime/compression_pipeline.py:158-189 | a turn is worth snipping if and only if it is not current, has no marker and no state record, no item of it mentions an error, some item uses a tool, and every tool used only reads |
| StageRules.ProtectedIs | agent_runtime/compression_pipeline.py:236-274 | a turn is protected if and only if it is current, one of the last two, or has less than the allowance behind it |
| StageLaws.TierGuardIs | agent_runtime/compression_pipeline.py:361-387 | L0 returns, group by group and in order, exactly the items that stay |
| StageLaws.TruncateAllShortens | agent_runtime/compression_pipeline.py:390-413 | L1 shortens each plain tool text by the rule for its tool and changes nothing else |
| StageLaws.SnipSnips | agent_runtime/compression_pipeline.py:416-474 | L2 returns a history within the threshold, or of at most two turns, as it is; of any other it replaces the unprotected read-only turns below the least cut that makes it small enough, or all of them |
| StageLaws.MicrocompactStubs | agent_runtime/compression_pipeline.py:477-555 | L3 returns a history within the threshold as it is; of any other it numbers the tool items from one and stubs the unprotected plain texts below the least cut that makes it small enough, or all of them |
| StageLaws.CollapseCollapses | agent_runtime/compression_pipeline.py:558-625 | L4 does the same as L2 with the turns worth folding |
| AutoCompact.FitL5Groups | agent_runtime/compression_pipeline.py:769-803 | the greedy re-adding loop equals its specification, or the pinned groups alone do not fit |
| AutoCompactExact.L5AutoCompact | agent_runtime/compression_pipeline.py:628-750 | the stage equals its specification and answers as the next row says |
| AutoCompactExact.AnswersExactly | agent_runtime/compression_pipeline.py:628-803 | of a history to be reworked that pairs up: over budget if and only if the pinned groups alone, or where groups are dropped beside the record of what is gone, exceed the window; cancelled if and only if a summary was asked for and aborted; otherwise it returns the history, the summary with kept groups behind it, or, also after a failed summary, the pinned groups and the newest others that fit, eight in all |
| AutoCompactExact.RecordIsTakenOver | agent_runtime/compression_pipeline.py:657-664 | the next rework takes over exactly the counts this one recorded as gone, and drops the record itself |
| AutoCompactExact.PinnedGroupsAre | agent_runtime/compression_pipeline.py:753-766 | pinned are the first group in which the user speaks, the current turn, and groups with a state record or a summary |
| AutoCompactExact.OldGroupsAre | agent_runtime/compression_pipeline.py:671-672 | to be summarised is the first half, at least one, of the unpinned groups in front of the last two |
| RecordsStaySilent.L5RefusesExactly | agent_runtime/compression_pipeline.py:659-672 | L5 refuses a history for its pairs if and only if it has to rework it and what is left without the earlier summaries and omission records does not pair up |
| AutoCompactLaws.FitGroupsFits | agent_runtime/compression_pipeline.py:769-803 | whenever fitting returns, the result is at most the window, holds every pinned group, and holds each other group exactly when it fits beside the pinned and the newer ones that were kept |
| AutoCompactLaws.AutoCompactFits | agent_runtime/compression_pipeline.py:628-750 | L5 raises or returns at most the window, or its unchanged input when that is within the trigger |
| AutoCompactLaws.WorkingIsAccepted | agent_runtime/compression_pipeline.py:659-664 | an accepted history whose summaries and omission records carry no calls is still accepted without them |
| AutoCompactLaws.RenderKeepsPairs | agent_runtime/compression_pipeline.py:778-788 | any subset of the groups, rendered, is accepted again |
| AutoCompactLaws.AutoCompactKeepsPairs | agent_runtime/compression_pipeline.py:628-750 | every history L5 returns pairs up, on the summarising and on the dropping path |
| PinnedGroupsSurvive.RegroupedAsBefore | agent_runtime/compression_pipeline.py:728-750 | grouping the kept groups again behind the new summary gives the same groups, so the second fitting works on what the first one kept |
| PinnedGroupsSurvive.PinnedSurvive | agent_runtime/compression_pipeline.py:753-803 | L5 returns its input, or the first user group, the current turn and repair state verbatim and in order, behind the new summary alone on the summarising path and behind nothing otherwise, followed at most by the omission marker |
| Pipeline.RunCompressionPipeline | agent_runtime/compression_pipeline.py:845-964 | every stage does its work, by its own law, on what the one before it left, and the answer is that of the last one behind the state record; a history that does not pair up is refused; one that does, and whose summaries and omission records carry no calls, is never refused for its pairs; what comes out for it pairs up and is within window or trigger unless a state record is put in front |
| Pipeline.PipelineNeverMismatches | agent_runtime/compression_pipeline.py:845-964 | L0 to L4 give no summary or omission record a call, so L5 never refuses what the pipeline hands it for its pairs |
| Pipeline.PipelineKeepsPairs | agent_runtime/compression_pipeline.py:845-964 | a history that is accepted at the start is accepted at the end, within window or trigger unless a state record is put in front |
| PipelineItems.NothingIsInvented | agent_runtime/compression_pipeline.py:845-964 | every item that comes out is an item of the history, numbered perhaps, with a plain tool text shortened and perhaps replaced by its stub, or one of the markers and records the stages add |
| PipelineItems.ToolTextsAreShortened | agent_runtime/compression_pipeline.py:845-964 | every tool item that comes out descends from one of the history, and every plain tool text that is no stub is within its limit whenever the note leaves room for it |
| PipelineItems.SmallHistoriesAreOnlyShortened | agent_runtime/compression_pipeline.py:845-964 | a history within all thresholds once its tool texts are shortened, without summaries, comes out as exactly the items that stay, in order, with those texts shortened |
| PipelineItems.PinnedItemsSurvive | agent_runtime/tier_policy.py:94-175 | what is pinned survives L0, unless it answers a tool outside the allowed ones or reports a rejection |
| UnitPacker.PackUnits | agent_runtime/context_preparation.py:98-105 | the packing loop equals its specification, oldest or newest first |
| UnitPacker.PacksWholeUnits | agent_runtime/context_preparation.py:98-105 | what is packed is an order-preserving subsequence of the units and fits the limit when the empty rendering does |
| PackerOrder.PackedIffItFits | agent_runtime/context_preparation.py:98-105 | a unit is packed if and only if it fits beside those packed before it in the order of the visit; one that does not fit keeps no later one out |
| UnitPacker.PacksEverythingThatFits | agent_runtime/context_preparation.py:98-105 | when all units fit together all of them are packed |
| UnitPacker.PackedMonotone | agent_runtime/context_preparation.py:98-105 | a larger limit never packs less by the cost of the whole selection |
| UnitPacker.PackedDiverges | agent_runtime/context_preparation.py:98-105 | two runs with different limits select alike up to a first unit; the run with the larger limit takes it, and the selection with it already exceeds the smaller limit |
| UnitPacker.PackedStable | agent_runtime/context_preparation.py:98-105 | packing again at exactly what was spent gives the same units |
| ElasticPool.QuotaIsFloor | agent_runtime/section_filler.py:102-103 | a soft quota is the exact floor of the weighted share of the pool |
| ElasticPool.QuotasFitPool | agent_runtime/section_filler.py:102-103 | the floored soft quotas sum to at most the pool for all weights, zero sum included |
| ElasticPool.PoolConserved | agent_runtime/section_filler.py:114-121 | what all sections cost plus what is unused is the pool, and the unused part is never negative |
| ElasticPool.WorkConserving | agent_runtime/section_filler.py:114-121 | with exact fitters nothing is refused, the total is the lesser of pool and demand, and every section gets at least the lesser of its demand and its quota |
| ElasticPool.LendingNeverTakesBack | agent_runtime/section_filler.py:114-121 | when fitters never give less for more, no section ends below its first-pass allocation |
| ElasticOrder.LendsInOrder | agent_runtime/section_filler.py:114-121 | with exact fitters a section gets more than its first-pass share only when every section in front of it has its whole demand |
| ElasticOrder.HonestFittersAreNeverRefused | agent_runtime/section_filler.py:106-121 | a request is never refused as long as no fitter returns more than it is offered |
| ElasticOrder.OversteppingIsRefused | agent_runtime/section_filler.py:106-113 | a fitter that returns more than its quota makes the request fail |
| ElasticOrder.TextsAreFitted | agent_runtime/section_filler.py:106-121 | every text is empty, or what its own fitter made of its own candidate within the pool, charged with its own count |
| ElasticPool.PackerLends | agent_runtime/section_filler.py:115-121 | the packer of whole units is such a fitter whenever adding a unit never lowers the count, and it is never refused |
| SectionFiller.Allocate | agent_runtime/section_filler.py:106-121 | the two loops over the priority list equal the allocation the laws are about |
| SectionFiller.SectionFiller.AddSection | agent_runtime/section_filler.py:37-66 | the whole new state; the total stays under the cap; the gap between total and recorded counts moves by exactly the count that a repeated name overwrites |
| SectionFiller.SectionFiller.AddRequired | agent_runtime/section_filler.py:68-90 | all required texts whole or nothing changed, with the exact refusal conditions; the gap moves by exactly the old counts under their names, so counts that were explained stay so |
| SectionFiller.SectionFiller.AddElastic | agent_runtime/section_filler.py:92-144 | refusals change nothing; otherwise exactly the allocation is charged, each section is reported with its quota, demand and charge, and the gap between total and recorded counts moves by exactly the old counts of the allocated names |
| SectionFiller.SectionFiller.AddStableSection | agent_runtime/section_filler.py:146-176 | the whole new state, trimming before dropping; the total stays under the cap |
| SectionFiller.ScaledIsFloor | agent_runtime/token_budget.py:20-22 | a scaled section budget is the floor of its share of the reference layout, and at least one |
| FillerRuns.FillAll | agent_runtime/section_filler.py:13-176 | over any list of the four adders, refused or not, the total stays under the cap and exceeds the recorded counts by exactly the sum of the counts that later adders overwrote; with fresh names nothing is overwritten |
| FillerRuns.RepeatedNameIsLost | agent_runtime/section_filler.py:37-66 | a section added twice under one name is charged twice and recorded once |
| NativeTail.NativeGroups | agent_runtime/context_preparation.py:34-75 | the validating loop equals its specification |
| NativeTail.ProjectTail | agent_runtime/context_preparation.py:78-95 | the projecting loop equals its specification |
| NativeTail.AcceptedIsMatched | agent_runtime/context_preparation.py:34-75 | messages are accepted as some pairs if and only if they are those pairs in order and every pair matches, with ids new across pairs |
| NativeTailLaws.TailsAreExchanges | agent_runtime/context_preparation.py:34-75 | a tail is accepted if and only if it alternates assistant messages with calls and user messages, call ids are non-empty and new over the whole tail, and each is answered exactly once in the very next message, which answers nothing else |
| NativeTailLaws.OnlyContentsChange | agent_runtime/context_preparation.py:78-95 | projecting changes nothing but the contents of answering blocks, each replaced by the diagnostic of failed evidence, a note for a selected source, or other evidence, in this order |
| NativeTail.PackedTailIsPaired | agent_runtime/context_preparation.py:34-105 | whatever the limit, the tail packed from projected pairs is accepted again with exactly the packed pairs |
| BudgetManager.BudgetManager.constructor | agent_runtime/budget_manager.py:43-49 | a fresh ledger with negative limits read as zero |
| BudgetManager.BudgetManager.Reserve | agent_runtime/budget_manager.py:55-75 | charges exactly when the limit allows it, otherwise counts a rejection; the decision reports the resulting usage |
| BudgetManager.BudgetManager.ReserveMany | agent_runtime/budget_manager.py:77-124 | three loops equal one all-or-nothing step; the decisions report usage before a refusal and after a charge |
| BudgetManager.BudgetManager.ReserveScope | agent_runtime/budget_manager.py:126-135 | an existing scope is admitted again without a charge, a new one charged as a whole or not at all |
| BudgetManager.BudgetManager.ReconcileScope | agent_runtime/budget_manager.py:137-149 | the loop over old and new resources equals one exchange of the scope costs |
| BudgetManager.BudgetManager.Check | agent_runtime/budget_manager.py:169-186 | changes no usage and answers as a reservation would |
| BudgetManager.BudgetManager.Record | agent_runtime/budget_manager.py:188-192 | charges past any limit, and answers with the usage after the charge |
| BudgetManager.BudgetManager.ReserveModelCall | agent_runtime/budget_manager.py:194-199 | registers the call exactly when its scope is admitted |
| BudgetManager.BudgetManager.SettleModelCall | agent_runtime/budget_manager.py:201-204 | an unknown key is reported as such, after its costs were already charged |
| BudgetManager.BudgetManager.RestoreMissingModelCalls | agent_runtime/budget_manager.py:249-263 | the merging loop equals its specification, including what stays merged when a scope is missing |
| BudgetDecisions.ReserveDecides | agent_runtime/budget_manager.py:55-75 | a reservation is allowed if and only if there is no limit or room below it; it is charged or counted as refused accordingly, nothing else moves, and the decision reports the usage, limit and rest it leads to |
| BudgetDecisions.ReserveManyDecides | agent_runtime/budget_manager.py:77-124 | all are charged if all have room, otherwise none, and exactly those without room are counted; every decision reports its own part of the state it leads to |
| BudgetDecisions.RefusalsAreCounted | agent_runtime/budget_manager.py:55-135 | over every run the rejection count of a resource is exactly the number of requests that found no room for it |
| BudgetDecisions.LimitsNeverChange | agent_runtime/budget_manager.py:43-263 | no run changes a limit, and a negative one counts as none |
| BudgetLaws.UsageIsExplained | agent_runtime/budget_manager.py:55-149 | over any sequence of operations except a full restore, usage is direct charges plus the sum of current scope costs |
| BudgetLaws.ClampNeverBinds | agent_runtime/budget_manager.py:142-148 | reconciling never takes back more than is charged, so the clamp at zero never binds |
| BudgetLaws.SettlementCharges | agent_runtime/budget_manager.py:201-204 | in every reachable ledger a settlement, refused or not, moves usage by what it reports minus what the scope held; so it leaves the usage alone if and only if these are equal, and a refused one leaves the calls alone |
| BudgetLaws.UnknownCallIsCharged | agent_runtime/budget_manager.py:201-204 | a settlement of a call nobody made is refused and has charged its costs |
| BudgetLaws.LastReportWins | agent_runtime/budget_manager.py:137-149 | of several reports for one scope only the last leaves a trace |
| BudgetMerges.MergeIsIdempotent | agent_runtime/budget_manager.py:249-263 | merging a journal again changes nothing and fails exactly if it failed before |
| BudgetMerges.MergeRefundsExactly | agent_runtime/budget_manager.py:249-263 | in every reachable ledger a merge moves usage by exactly the sum, over the calls it adds, of their new cost minus what their scope held before; so it refunds if and only if that sum is negative |
| BudgetMerges.LargerCostsNeverRefund | agent_runtime/budget_manager.py:249-263 | a merge that reports for every added call at least what its scope held lowers no usage |
| BudgetMerges.MergeNeverRefunds | agent_runtime/budget_manager.py:249-263 | in any ledger, reachable or not, usage never drops when the merged calls are unknown to the scopes |
| BudgetMerges.MergeCanRefund | agent_runtime/budget_manager.py:256-262 | a concrete ledger where usage drops because a worker scope had the merged key |
| BudgetBounds.CallsWithinLimit | agent_runtime/model_call_budget.py:103-113 | the number of calls ever reserved stays within a positive call limit whatever providers report and whatever else is charged meanwhile |
| BudgetBounds.UnsettledStaysCharged | agent_runtime/model_call_budget.py:106-115 | a call that is reserved and never settled stays charged in full |
| BudgetBounds.TokensBalanceExactly | agent_runtime/model_call_budget.py:30-31 | in every reachable ledger total tokens differ from prompt plus output tokens by exactly the imbalance of all direct charges and of the current scopes; so they balance if and only if these cancel |
| BudgetBounds.TokensBalance | agent_runtime/model_call_budget.py:30-31 | so they balance when every operation charges in balance, as model calls do |
| BudgetBounds.DirectTotalIsOutOfBalance | agent_runtime/model_call_budget.py:30-31 | a total charged directly leaves them out of balance |
| BudgetBounds.WithinLimits | agent_runtime/budget_manager.py:77-149 | no limited resource passes its limit while settlements do not exceed reservations |
| ModelCalls.AccumulateCost | agent_runtime/model_call_budget.py:34-58 | a positive cost is charged to the hard and the soft ledger, nothing otherwise |
| ModelCalls.InvokeModelCall | agent_runtime/model_call_budget.py:69-155 | one call performs exactly the ledger operations of its outcome in order, and answers and charges as the next row says |
| ModelCalls.CallFits | agent_runtime/model_call_budget.py:69-155 | the answer is the first refusal that applies; under a new key an admitted call raises calls by one and prompt, output and total tokens by exactly the reported usage or, with none reported or interrupted, by exactly the reservation, its record reads actual, estimated or unknown, and only an answer is charged its cost; a refused call charges nothing |
| ModelCalls.CallsAreDispatched | agent_runtime/model_call_budget.py:103-154 | a call under a new key, run without interruption from any ledger, keeps to the discipline the bounds are stated for |
| CallInterleavings.AloneRunsTheCall | agent_runtime/model_call_budget.py:69-155 | a call taken apart into single moves performs, undisturbed, exactly the operations of the whole call |
| CallInterleavings.InterleavingsAreDispatched | agent_runtime/model_call_budget.py:103-154 | calls with distinct keys, interleaved in any way with each other and with charges outside their keys, keep to the discipline the bounds are stated for |
| CallInterleavings.InterleavedCallsWithinLimit | agent_runtime/model_call_budget.py:103-113 | however many calls run at once and however they interleave, no more of them are ever admitted than a positive call limit allows |
| ModelCalls.CallCharges | agent_runtime/model_call_budget.py:34-66 | a call charges its cost exactly when it is answered, and only within the limit |
| ModelCalls.OvershootByOneCall | agent_runtime/model_call_budget.py:34-66 | calls made one after another pass a positive hard cost limit by at most one cost |
| CostOvershoot.OvershootByCallsInFlight | agent_runtime/model_call_budget.py:34-66 | calls interleaved in any way, with each other and with operations that leave the hard cost alone, pass a positive hard cost limit by at most what the calls in flight at some moment could still charge |
| CostOvershoot.OvershootByAllCalls | agent_runtime/model_call_budget.py:34-66 | so calls that all run at once pass it by at most one largest cost each |
| ModelCalls.StoppedOnceOverspent | agent_runtime/model_call_budget.py:34-66 | of calls made one after another, the next one is stopped for its cost if and only if the answered ones have cost more than a positive limit |
| ModelCalls.SpentLimitAdmits | agent_runtime/model_call_budget.py:61-66 | for every positive limit, a ledger with usage at the limit in which a call goes through to its answer, and one with one unit more in which the same call is stopped |
| CancellationToken.CancellationToken.RunPendingCallbacks | agent_runtime/cancellation.py:124-138 | runs the snapshot in order if the token is cancelled and not yet drained, otherwise nothing |
| CancellationToken.CancellationToken.Cancel | agent_runtime/cancellation.py:140-152 | cancels, drains and runs every subscribed callback |
| CancellationToken.CancellationToken.AddCallback | agent_runtime/cancellation.py:154-174 | subscribes, and runs at once only on a drained token |
| CancellationToken.CancellationToken.Unsubscribe | agent_runtime/cancellation.py:163-166 | removes the first subscription of the callback |
| CancellationToken.RunsOncePerCancel | agent_runtime/cancellation.py:111-174 | in every interleaving, once the token is drained and nothing is left to run, a callback that was registered and never unsubscribed has run once and once more for each cancel after the drain while it was subscribed; so it ran exactly once if and only if there was no such cancel |
| CancellationToken.EachRunsOnce | agent_runtime/cancellation.py:111-174 | without a cancel after the drain every such callback has run exactly once, late additions included |
| CancellationToken.NothingRunsEarly | agent_runtime/cancellation.py:111-130 | a request alone runs nothing |
| CancellationToken.CancelAfterDrainRunsAgain | agent_runtime/cancellation.py:140-152 | one more cancel after the drain makes every subscribed callback due once more, on top of its earlier runs |
| BlockingScope.ClosedMeansDrained | agent_runtime/cancellation.py:29-73 | in every interleaving of owners and workers pending counts the reservations some thread still has to give back; each of the three release sites together gives one back at most once, and only when its function can neither begin nor go on; a closed scope has none and admits none |
| BlockingScope.ClosingIsFinal | agent_runtime/cancellation.py:66-73 | after closing no call is admitted, begins or goes on; all that is left to happen is that owners stop waiting |
| BlockingScope.GivingUpHoldsTheScope | agent_runtime/cancellation.py:224-276 | an owner that stops waiting does not release its call: the scope cannot close until the worker is done |
| BlockingScope.ScopeCanClose | agent_runtime/cancellation.py:224-276 | no reachable state is stuck: from every one the threads can go on to a state where the scope may close |
| ReadPermits.PermitsAreBounded | agent_runtime/read_permits.py:10-61 | in every interleaving at most two slots are held, a lease keeps its slot as long as parent or borrowers use it and returns it exactly once, and the semaphore is never over-released |
| ReadPermits.NestedTakesNoSlot | agent_runtime/read_permits.py:39-46 | a nested lease on the same thread changes no slot and no lease, and leaving it undoes it |
| ReadPermits.HeldIsLive | agent_runtime/read_permits.py:25-29 | borrowing inside an own lease always borrows from a live one |
| ReadPermits.SlotsReturnOnceExactly | agent_runtime/read_permits.py:25-61 | over every run, at each moment every lease has given its slot back once if nobody uses it and not yet otherwise, if and only if every borrow was from a live lease |
| ReadPermits.DeadBorrowReturnsTwice | agent_runtime/read_permits.py:25-37 | in any state reached without one, a borrow from a lease whose slot is back returns the slot a second time |
| ReadPermits.StaleLeaseCanBeBorrowed | agent_runtime/read_permits.py:51-61 | the thread-local lease outlives its context, and one stale borrow over-releases the semaphore |
| Sorting.SortedForgetsOrder | agent_runtime/context_runtime.py:130-130 | a total order that tells the elements apart sorts every arrangement of them to the same list |
| ContextSelection.SelectWithResult | agent_runtime/context_runtime.py:109-162 | the four loops equal the selection the laws are about |
| ContextSelection.SelectionIsSound | agent_runtime/context_runtime.py:109-162 | the cost is exact and within a non-negative budget, ids that are not stale are selected or dropped and never both, whatever is dropped would overflow the final total, and no decision is left to policy |
| ContextSelection.SelectedIffItFits | agent_runtime/context_runtime.py:130-149 | a candidate is selected if and only if it is a taken pin or fits, by falling utility, beside the pins and the better candidates that were taken |
| ContextSelection.PinSelectedIffItFits | agent_runtime/context_runtime.py:120-132 | a pin is in the final selection if and only if it fits beside the pins with smaller ids that are in it; the second pass neither undoes a pin nor takes a refused one |
| ContextDrops.PassesGoInOrder | agent_runtime/context_runtime.py:112-134 | candidates are the first fresh items of their ids; pins are those pinned hard or of a required kind, by id; the rest goes by falling utility and then by id; a negative cost counts as none |
| ContextDrops.DropsAreExplained | agent_runtime/context_runtime.py:121-156 | the list of refusals is the refused pins by id, over budget, then every refused candidate in order, with the required kind as reason if and only if fewer of its kind were taken before it than asked for; each carries its own utility |
| ContextSelection.OrderDoesNotMatter | agent_runtime/context_runtime.py:109-162 | with distinct ids the selection does not depend on the input order |
| JsonRecovery.BalancedJson | agent_runtime/json_recovery.py:44-75 | the scanning loop equals its specification in all four outcomes |
| JsonGroups.GroupIsFound | agent_runtime/json_recovery.py:44-75 | a bracket group behind text without openers is cut out whole, whatever follows it |
| JsonGroups.CompleteIsGroup | agent_runtime/json_recovery.py:44-75 | whatever is returned as complete is a bracket group, well nested outside strings, behind text without openers |
| JsonGroups.CandidateIsMinimal | agent_runtime/json_recovery.py:69-73 | no proper prefix of a complete candidate is complete |
| JsonOutcomes.RecoveredExactly | agent_runtime/json_recovery.py:44-75 | without an opener nothing is recovered; otherwise the group the rest begins with, if it begins with one; the rest as incomplete if and only if something written behind it would make it a group; and nothing when no continuation could |
| JsonText.PrintedJsonIsFound | agent_runtime/json_recovery.py:44-75 | every array or object, in any layout and with any escapes sections 2 and 7 of RFC 8259 allow, is found whole |

## Left out

- PatchInput.ParseInput: arguments are texts or absent; a diff of another type, which the code refuses, is not modelled.
- PatchHeader.Coordinates: header digits are ASCII; the pattern of the code also matches other decimal digits.
- PatchHunks.ParseHunks: no-newline markers are a flag on each body line instead of a set of indices, which is the same information.
- Previews and message texts of the patch engine and of refusals: presentational. Refusals carry the code or kind, not the wording.
- Thresholds of the compression stages: products of ratios and window are inputs, as is the effective tail allowance.
- Compression.Truncated: the lines of a text, token counts, marker and stub wording, stripping, lower-casing and the text of block lists are unspecified functions; that trimming keeps its limit and that tokens of two texts bound those of both are conditions of the law that needs them.
- Statistics, trace events and the contract report that the stages write into metadata.
- Pipeline.PipelineKeepsPairs: the state record that the integrity check may put in front after the last stage is not counted against the window, as in the code.
- Calls and results without ids: atomicity is stated for identified calls only, because a summary can close such a group early.
- Token decrease for each snip or collapse: a marker can be longer than the turn it replaces, so it is not claimed.
- Parsing and fitting of summaries, and the prompt for them: foreign to the window bound, which holds for every outcome.
- SectionFiller.AddSection: the list of cut messages and the caller's own entry for the request in the recorded counts are not modelled.
- ElasticPool.Quota: weights are natural numbers and the floor is exact; binary rounding of large products is not modelled.
- A full restore of the ledger: it replaces scopes and usage independently, so no explanation of usage survives it; it is not modelled.
- BudgetManager.Reserve: amounts are integers; rounding of binary fractions is not modelled. The suggested action of a decision is a constant table and left out.
- ModelCalls.InvokeModelCall: waiting, deadlines and retries are an outcome parameter; the detail text of a refused reservation is left out.
- CancellationToken.EachRunsOnce: callbacks have distinct identities, and an error that is not an ordinary exception, which would abort the loop of a drain, is not modelled.
- Around the blocking scope, an asynchronous exception between queueing a job and returning from the call is not modelled; the context binding of nested calls is left out.
- Cancellation, scope and permits are modelled on values as steps, besides the class for the token; waiting and polling are enabledness of steps. That the blocking scope can always drain is proved; that schedulers let it is not.
- ReadPermits.PermitsAreBounded: callers close contexts and return handles once, and release a slot directly only if they acquired one directly.
- ContextSelection.SelectWithResult: the utility of an item is a given real number; its weights and factors, and not-a-number values, are left out.
- Around the JSON scanner, unwrapping of fences, removal of trailing commas (which also reaches into strings) and decoding are left out.
- Orchestration (`agent_loop.py`, `runtime.py`, `context_manager.py`, `checkpoint.py`), stores, file and process code: foreign calls over state that is not part of this model.
- Small tables and counters (`tool_budget.py`, `step_engine.py`, `repair_runtime.py`, `runtime_contracts.py`): they would only add easy members.
