/** Which texts are envelopes, which operations they stand for, and what is wrong with the others. */
module PatchEnvelopeLaws {
  import opened Results
  import opened Sequences
  import opened PatchText
  import opened PatchOperations
  import opened PatchUnified
  import opened PatchEnvelope

  const BEGIN_LINE: string := "*** Begin Patch"
  const END_LINE: string := "*** End Patch"

  /** The action by its name, the path with forward slashes, and the content as terminated lines. */
  predicate StandsForEntry(op: FileOp, entry: Entry) {
    && (entry.action.Update? ==> op.action == "update")
    && (entry.action.Add? ==> op.action == "add")
    && (entry.action.Delete? ==> op.action == "delete")
    && |op.path| == |entry.raw|
    && (forall i | 0 <= i < |op.path| :: op.path[i] == if entry.raw[i] == '\\' then '/' else entry.raw[i])
    && op.diff == (if entry.content == [] then "" else Join(entry.content) + "\n")
    && op.plan.None?
  }

  predicate AllStandFor(ops: seq<FileOp>, entries: seq<Entry>) {
    |ops| == |entries| && forall i | 0 <= i < |ops| :: StandsForEntry(ops[i], entries[i])
  }

  ghost predicate IsPatchOf(lines: seq<string>, entries: seq<Entry>, fold: string -> string) {
    && entries != [] && ProperEntries(entries, {}, fold)
    && lines == [BEGIN_LINE] + PrintEntries(entries) + [END_LINE]
  }

  lemma {:induction false} SlashedAt(path: string, i: nat)
    requires i < |path|
    ensures |Slashed(path)| == |path| && Slashed(path)[i] == if path[i] == '\\' then '/' else path[i]
  {
    if i > 0 {
      SlashedAt(path[1..], i - 1);
    } else if |path| > 1 {
      SlashedAt(path[1..], 0);
    }
  }

  lemma {:induction false} SlashedIs(path: string, slashed: string)
    ensures slashed == Slashed(path)
            <==> |slashed| == |path|
                 && forall i | 0 <= i < |slashed| :: slashed[i] == if path[i] == '\\' then '/' else path[i]
  {
    hide Slashed;
    forall i | 0 <= i < |path|
      ensures |Slashed(path)| == |path| && Slashed(path)[i] == if path[i] == '\\' then '/' else path[i]
    {
      SlashedAt(path, i);
    }
    if path == "" { SlashedNothing(); } else { SlashedAt(path, 0); }
  }

  lemma {:induction false} SlashedNothing()
    ensures Slashed("") == ""
  {
  }

  lemma {:induction false} OpIs(op: FileOp, entry: Entry)
    ensures StandsForEntry(op, entry) <==> op == OpOf(entry)
  {
    hide Slashed, Join;
    SlashedIs(entry.raw, op.path);
  }

  lemma {:induction false} OpsAre(ops: seq<FileOp>, entries: seq<Entry>)
    ensures AllStandFor(ops, entries) <==> ops == OpsOf(entries)
  {
    hide OpsOf, OpOf, StandsForEntry;
    OpsCount(entries);
    forall i | 0 <= i < |entries| ensures OpsOf(entries)[i] == OpOf(entries[i]) { OpsAt(entries, i); }
    forall i | 0 <= i < |entries| && i < |ops| ensures StandsForEntry(ops[i], entries[i])
           <==> ops[i] == OpOf(entries[i]) {
      OpIs(ops[i], entries[i]);
    }
  }

  lemma {:induction false} MarkersAre()
    ensures BEGIN_PATCH == BEGIN_LINE && END_PATCH == END_LINE && BEGIN_LINE != END_LINE
  {
    assert BEGIN_LINE[4] == 'B' && END_LINE[4] == 'E';
  }

  lemma {:induction false} EnvelopeIs(lines: seq<string>, inner: seq<string>)
    ensures IsEnvelope(lines) && Inner(lines) == inner <==> lines == [BEGIN_LINE] + inner + [END_LINE]
  {
    MarkersAre();
    hide BEGIN_PATCH, END_PATCH, BEGIN_LINE, END_LINE;
    if IsEnvelope(lines) {
      assert |lines| >= 2;
      assert lines == [lines[0]] + lines[1..|lines| - 1] + [lines[|lines| - 1]];
    }
    var all := [BEGIN_LINE] + inner + [END_LINE];
    assert all[1..|all| - 1] == inner;
  }

  /** A text in the envelope format is accepted exactly when its lines are the two marker lines around the
      print of proper entries, at least one; and then there is one operation for each entry, in order. */
  lemma {:induction false} EnvelopesAreRead(body: string, fold: string -> string, ops: seq<FileOp>)
    requires !StartsWith(body, "--- ") && !StartsWith(body, "diff --git ")
    ensures ParseEnvelope(body, fold) == Ok(ops)
            <==> Lines(body).Ok? && exists entries ::
                 IsPatchOf(Lines(body).value, entries, fold) && AllStandFor(ops, entries)
  {
    hide Lines, IsEnvelope, Inner, Entries, OpsOf, StartsWith, PrintEntries, ProperEntries, BEGIN_LINE, END_LINE,
         AllStandFor;
    if Lines(body).Ok? {
      var lines := Lines(body).value;
      if IsEnvelope(lines) {
        EnvelopeIs(lines, Inner(lines));
        var inner := Inner(lines);
        if Entries(inner, {}, fold).Ok? {
          var entries := Entries(inner, {}, fold).value;
          ParseIsInverseOfPrint(inner, entries, fold);
          OpsAre(ops, entries);
        }
      }
      forall entries | IsPatchOf(lines, entries, fold) && AllStandFor(ops, entries)
        ensures ParseEnvelope(body, fold) == Ok(ops)
      {
        EnvelopeIs(lines, PrintEntries(entries));
        ParseIsInverseOfPrint(PrintEntries(entries), entries, fold);
        OpsAre(ops, entries);
      }
    }
  }

  // ----- refusals

  /** What is wrong with an entry behind others: its first line names no file, it names one of theirs again, it is
      a deletion with content, an update without, or an addition with a line that is no addition. */
  predicate IsWrong(good: seq<Entry>, line: string, content: seq<string>, fold: string -> string, e: EnvelopeError) {
    match ReadHeader(line)
    case None => e == UnexpectedContent
    case Some((action, raw)) =>
      if exists i | 0 <= i < |good| :: fold(Slashed(good[i].raw)) == fold(Slashed(raw)) then e == DuplicatePath
      else if action.Delete? then content != [] && e == DeleteWithContent
      else if action.Update? then content == [] && e == EmptyUpdate
      else (exists j | 0 <= j < |content| :: content[j] == "" || content[j][0] != '+') && e == AddWithoutPlus
  }

  lemma {:induction false} AllPlusIs(lines: seq<string>)
    ensures AllPlus(lines) <==> forall j | 0 <= j < |lines| :: lines[j] != "" && lines[j][0] == '+'
  {
    if lines != [] {
      AllPlusIs(lines[1..]);
      assert forall j | 0 <= j < |lines[1..]| :: lines[1..][j] == lines[j + 1];
      assert forall j | 0 < j < |lines| :: lines[j] == lines[1..][j - 1];
    }
  }

  function FoldedPaths(entries: seq<Entry>, fold: string -> string): set<string> {
    set i | 0 <= i < |entries| :: fold(Slashed(entries[i].raw))
  }

  lemma {:induction false} WrongFirst(good: seq<Entry>, seen: set<string>, line: string, content: seq<string>,
                                      rest: seq<string>, fold: string -> string, e: EnvelopeError)
    requires seen == FoldedPaths(good, fold) && IsWrong(good, line, content, fold, e)
    requires NoneStarred(content) && (rest == [] || Starred(rest[0]))
    ensures Entries([line] + (content + rest), seen, fold) == Err(e)
  {
    hide Slashed, Starred, ReadHeader, AllPlus, NoneStarred, WithoutFirst;
    var inner := [line] + (content + rest);
    assert inner[1..] == content + rest && inner[0..] == inner;
    RunOfContent(content, rest);
    EntriesStep(inner, 0, seen, fold);
    assert (content + rest)[..|content|] == content;
    AllPlusIs(content);
  }

  lemma {:induction false} PathsBehind(good: seq<Entry>, seen: set<string>, fold: string -> string)
    requires good != []
    ensures seen + FoldedPaths(good, fold) == (seen + {fold(Slashed(good[0].raw))}) + FoldedPaths(good[1..], fold)
  {
    hide Slashed;
    var all, first, rest := FoldedPaths(good, fold), fold(Slashed(good[0].raw)), FoldedPaths(good[1..], fold);
    forall x | x in all ensures x == first || x in rest {
      var i :| 0 <= i < |good| && x == fold(Slashed(good[i].raw));
      if i > 0 { assert good[i] == good[1..][i - 1]; }
    }
    forall x | x in rest ensures x in all {
      var i :| 0 <= i < |good[1..]| && x == fold(Slashed(good[1..][i].raw));
      assert good[1..][i] == good[i + 1];
    }
    assert first in all by { assert first == fold(Slashed(good[0].raw)); }
  }

  /** Entries that are read in front of a wrong one change nothing about its refusal. */
  lemma {:induction false} WrongBehind(good: seq<Entry>, seen: set<string>, lines: seq<string>, fold: string -> string,
                                       e: EnvelopeError)
    requires ProperEntries(good, seen, fold) && (lines == [] || Starred(lines[0]) || good == [])
    requires Entries(lines, seen + FoldedPaths(good, fold), fold) == Err(e)
    ensures Entries(PrintEntries(good) + lines, seen, fold) == Err(e)
    decreases |good|
  {
    hide *;
    if good == [] {
      NothingPrinted(seen, fold);
      assert PrintEntries(good) + lines == lines && seen + FoldedPaths(good, fold) == seen;
    } else {
      var entry := good[0];
      PrintsFirst(entry, good[1..], seen, fold);
      assert [entry] + good[1..] == good;
      PathsBehind(good, seen, fold);
      StarredBehind(good[1..], lines);
      WrongBehind(good[1..], seen + {fold(Slashed(entry.raw))}, lines, fold, e);
      OneMoreEntry(entry, PrintEntries(good[1..]) + lines, seen, fold);
      AfterError([entry], e);
      assert PrintEntries(good) + lines
          == [Prefix(entry.action) + entry.raw] + PrintContent(entry) + (PrintEntries(good[1..]) + lines);
    }
  }

  lemma {:induction false} AfterError(done: seq<Entry>, e: EnvelopeError)
    ensures After(done, Err(e)) == Err(e)
  {
  }

  lemma {:induction false} NothingPrinted(seen: set<string>, fold: string -> string)
    ensures PrintEntries([]) == [] && FoldedPaths([], fold) == {}
  {
  }

  lemma {:induction false} StarredBehind(entries: seq<Entry>, lines: seq<string>)
    requires lines == [] || Starred(lines[0])
    ensures var all := PrintEntries(entries) + lines;
            all == [] || Starred(all[0])
  {
    hide PrintEntries, Starred;
    EntriesStart(entries);
    var printed := PrintEntries(entries);
    assert printed == [] ==> printed + lines == lines;
    assert printed != [] ==> (printed + lines)[0] == printed[0];
  }

  lemma {:induction false} OneMoreEntry(entry: Entry, rest: seq<string>, seen: set<string>, fold: string -> string)
    requires ProperEntry(entry) && fold(Slashed(entry.raw)) !in seen && (rest == [] || Starred(rest[0]))
    ensures Entries([Prefix(entry.action) + entry.raw] + PrintContent(entry) + rest, seen, fold)
         == After([entry], Entries(rest, seen + {fold(Slashed(entry.raw))}, fold))
  {
    hide ReadHeader, ProperEntry, ReadContent, PrintContent, Prefix, Starred, Slashed, ContentRun, After, Entries;
    var header, content := Prefix(entry.action) + entry.raw, PrintContent(entry);
    var inner := [header] + content + rest;
    ProperParts(entry);
    PatchEnvelope.HeaderReadsBack(entry.action, entry.raw);
    ContentReadsBack(entry);
    RunOfContent(content, rest);
    assert inner[0..] == inner && inner[1..] == content + rest && inner[1 + |content|..] == rest;
    assert (content + rest)[..|content|] == content;
    EntriesStep(inner, 0, seen, fold);
  }

  /** The first wrong entry is the one reported. */
  lemma {:induction false} FirstWrongEntryIsRefused(body: string, good: seq<Entry>, line: string, content: seq<string>,
                                                    rest: seq<string>, fold: string -> string, e: EnvelopeError)
    requires !StartsWith(body, "--- ") && !StartsWith(body, "diff --git ")
    requires Lines(body) == Ok([BEGIN_LINE] + (PrintEntries(good) + ([line] + (content + rest))) + [END_LINE])
    requires ProperEntries(good, {}, fold) && IsWrong(good, line, content, fold, e)
    requires (good == [] || Starred(line)) && NoneStarred(content) && (rest == [] || Starred(rest[0]))
    ensures ParseEnvelope(body, fold) == Err(e)
  {
    hide Lines, IsEnvelope, Inner, Entries, OpsOf, StartsWith, PrintEntries, ProperEntries, BEGIN_LINE, END_LINE,
         IsWrong, FoldedPaths, Starred, NoneStarred;
    var wrong := [line] + (content + rest);
    WrongFirst(good, FoldedPaths(good, fold), line, content, rest, fold, e);
    assert {} + FoldedPaths(good, fold) == FoldedPaths(good, fold);
    WrongBehind(good, {}, wrong, fold, e);
    EnvelopeIs(Lines(body).value, PrintEntries(good) + wrong);
  }

  // ----- unified diffs

  /** A text that begins like a unified diff stands for its files, each with its plan ready. */
  lemma {:induction false} DiffsStandForFiles(body: string, fold: string -> string)
    requires StartsWith(body, "--- ") || StartsWith(body, "diff --git ")
    ensures match UnifiedFiles(body, fold)
            case Err(e) => ParseEnvelope(body, fold) == Err(RefusedDiff(e))
            case Ok(files) =>
              var r := ParseEnvelope(body, fold);
              && r.Ok? && |r.value| == |files|
              && forall i | 0 <= i < |files| ::
                r.value[i].action == files[i].action && r.value[i].path == files[i].path
                && r.value[i].plan == Some(files[i].plan)
  {
    hide UnifiedFiles, StartsWith;
  }
}
