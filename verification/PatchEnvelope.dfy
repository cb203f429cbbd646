/** The Begin/End Patch envelope that carries several file operations. */
module PatchEnvelope {
  import opened Results
  import opened PatchText
  import opened PatchFences
  import opened PatchOperations
  import opened PatchUnified
  import opened Sequences

  datatype Action = Update | Add | Delete

  /** One operation as it stands in the envelope: its path as written and its content lines. */
  datatype Entry = Entry(action: Action, raw: string, content: seq<string>)

  datatype EnvelopeError = Unreadable | NotAnEnvelope | UnexpectedContent | DuplicatePath
                         | DeleteWithContent | EmptyUpdate | AddWithoutPlus | EmptyInput
                         | RefusedDiff(error: PatchError)

  const BEGIN_PATCH := "*** Begin Patch"
  const END_PATCH := "*** End Patch"

  function NameOf(action: Action): string {
    match action case Update => "update" case Add => "add" case Delete => "delete"
  }

  function Prefix(action: Action): string {
    match action
    case Update => "*** Update File: "
    case Add => "*** Add File: "
    case Delete => "*** Delete File: "
  }

  predicate Starred(line: string) {
    |line| >= 4 && line[0] == '*' && line[1] == '*' && line[2] == '*' && line[3] == ' '
  }

  predicate Names(line: string, action: Action) {
    StartsWith(line, Prefix(action)) && |line| > |Prefix(action)| && '\n' !in line[|Prefix(action)|..]
  }

  function ReadHeader(line: string): Option<(Action, string)> {
    if Names(line, Update) then Some((Update, line[|Prefix(Update)|..]))
    else if Names(line, Add) then Some((Add, line[|Prefix(Add)|..]))
    else if Names(line, Delete) then Some((Delete, line[|Prefix(Delete)|..]))
    else None
  }

  /** path.replace("\\", "/") */
  function Slashed(path: string): string {
    if path == "" then "" else [if path[0] == '\\' then '/' else path[0]] + Slashed(path[1..])
  }

  function ContentRun(lines: seq<string>): (k: nat)
    ensures k <= |lines|
  {
    if lines == [] || Starred(lines[0]) then 0 else 1 + ContentRun(lines[1..])
  }

  predicate AllPlus(lines: seq<string>) {
    lines == [] || (lines[0] != "" && lines[0][0] == '+' && AllPlus(lines[1..]))
  }

  function WithoutFirst(lines: seq<string>): seq<string>
    requires AllPlus(lines)
  {
    if lines == [] then [] else [lines[0][1..]] + WithoutFirst(lines[1..])
  }

  function ReadContent(action: Action, lines: seq<string>): Result<seq<string>, EnvelopeError> {
    match action
    case Delete => if lines != [] then Err(DeleteWithContent) else Ok([])
    case Update => if lines == [] then Err(EmptyUpdate) else Ok(lines)
    case Add => if !AllPlus(lines) then Err(AddWithoutPlus) else Ok(WithoutFirst(lines))
  }

  /** The entries between the two marker lines; no two paths may fold to the same name. */
  function Entries(inner: seq<string>, seen: set<string>, fold: string -> string): Result<seq<Entry>, EnvelopeError>
    decreases |inner|
  {
    if inner == [] then Ok([])
    else
      match ReadHeader(inner[0])
      case None => Err(UnexpectedContent)
      case Some(header) =>
        if fold(Slashed(header.1)) in seen then Err(DuplicatePath)
        else
          var k := ContentRun(inner[1..]);
          match ReadContent(header.0, inner[1..][..k])
          case Err(e) => Err(e)
          case Ok(content) =>
            After([Entry(header.0, header.1, content)],
                  Entries(inner[1..][k..], seen + {fold(Slashed(header.1))}, fold))
  }

  function After(done: seq<Entry>, r: Result<seq<Entry>, EnvelopeError>): Result<seq<Entry>, EnvelopeError> {
    if r.Err? then r else Ok(done + r.value)
  }

  /** The operation an entry stands for. */
  function OpOf(entry: Entry): FileOp {
    FileOp(NameOf(entry.action), Slashed(entry.raw), if entry.content == [] then "" else Join(entry.content) + "\n",
           None)
  }

  function OpsOf(entries: seq<Entry>): seq<FileOp> {
    if entries == [] then [] else OpsOf(entries[..|entries| - 1]) + [OpOf(entries[|entries| - 1])]
  }

  predicate IsUnified(body: string) { StartsWith(body, "--- ") || StartsWith(body, "diff --git ") }

  predicate IsEnvelope(lines: seq<string>) {
    lines != [] && lines[0] == BEGIN_PATCH && lines[|lines| - 1] == END_PATCH
  }

  function Inner(lines: seq<string>): seq<string>
    requires IsEnvelope(lines)
  {
    if |lines| < 2 then [] else lines[1..|lines| - 1]
  }

  /** The operation a file of a unified diff stands for; its plan is parsed already. */
  function FileOpOf(file: FilePatch): FileOp { FileOp(file.action, file.path, "", Some(file.plan)) }

  function FileOpsOf(files: seq<FilePatch>): (ops: seq<FileOp>)
    ensures |ops| == |files| && forall i | 0 <= i < |files| :: ops[i] == FileOpOf(files[i])
  {
    if files == [] then [] else [FileOpOf(files[0])] + FileOpsOf(files[1..])
  }

  function DiffOps(r: Result<seq<FilePatch>, PatchError>): Result<seq<FileOp>, EnvelopeError> {
    match r
    case Err(e) => Err(RefusedDiff(e))
    case Ok(files) => Ok(FileOpsOf(files))
  }

  function ParseEnvelope(body: string, fold: string -> string): Result<seq<FileOp>, EnvelopeError> {
    if IsUnified(body) then DiffOps(UnifiedFiles(body, fold))
    else if Lines(body).Err? then Err(Unreadable)
    else if !IsEnvelope(Lines(body).value) then Err(NotAnEnvelope)
    else
      match Entries(Inner(Lines(body).value), {}, fold)
      case Err(e) => Err(e)
      case Ok(entries) => if entries == [] then Err(EmptyInput) else Ok(OpsOf(entries))
  }

  // ----- printing entries

  function PlusLines(lines: seq<string>): seq<string> {
    if lines == [] then [] else ["+" + lines[0]] + PlusLines(lines[1..])
  }

  function PrintContent(entry: Entry): seq<string> {
    if entry.action.Add? then PlusLines(entry.content) else entry.content
  }

  function PrintEntries(entries: seq<Entry>): seq<string> {
    if entries == [] then []
    else [Prefix(entries[0].action) + entries[0].raw] + (PrintContent(entries[0]) + PrintEntries(entries[1..]))
  }

  predicate NoneStarred(lines: seq<string>) {
    lines == [] || (!Starred(lines[0]) && NoneStarred(lines[1..]))
  }

  /** An update has content no line of which opens another entry, a deletion has none. */
  predicate ProperEntry(entry: Entry) {
    && entry.raw != "" && '\n' !in entry.raw
    && (entry.action.Delete? ==> entry.content == [])
    && (entry.action.Update? ==> entry.content != [] && NoneStarred(entry.content))
  }

  predicate ProperEntries(entries: seq<Entry>, seen: set<string>, fold: string -> string) {
    entries == []
    || (&& ProperEntry(entries[0]) && fold(Slashed(entries[0].raw)) !in seen
        && ProperEntries(entries[1..], seen + {fold(Slashed(entries[0].raw))}, fold))
  }

  lemma {:induction false} HeaderReadsBack(action: Action, raw: string)
    ensures Starred(Prefix(action) + raw)
    ensures raw != "" && '\n' !in raw ==> ReadHeader(Prefix(action) + raw) == Some((action, raw))
  {
    var line := Prefix(action) + raw;
    assert line[..|Prefix(action)|] == Prefix(action) && line[|Prefix(action)|..] == raw;
    assert line[4] == match action case Update => 'U' case Add => 'A' case Delete => 'D';
    PrefixesDiffer(line, Update);
    PrefixesDiffer(line, Add);
    PrefixesDiffer(line, Delete);
    hide Prefix, StartsWith;
  }

  lemma {:induction false} PrefixesDiffer(line: string, action: Action)
    ensures StartsWith(line, Prefix(action))
            ==> |line| > 4 && line[4] == match action case Update => 'U' case Add => 'A' case Delete => 'D'
  {
    if StartsWith(line, Prefix(action)) {
      assert line[4] == line[..|Prefix(action)|][4];
    }
  }

  lemma {:induction false} HeaderIsPrefix(line: string)
    requires ReadHeader(line).Some?
    ensures var (action, raw) := ReadHeader(line).value;
            line == Prefix(action) + raw && raw != "" && '\n' !in raw
  {
    hide Prefix;
    var (action, raw) := ReadHeader(line).value;
    assert Names(line, action);
    assert line == line[..|Prefix(action)|] + line[|Prefix(action)|..];
  }

  // ----- parsing is the inverse of printing

  lemma {:induction false} RunOfContent(content: seq<string>, rest: seq<string>)
    requires NoneStarred(content) && (rest == [] || Starred(rest[0]))
    ensures ContentRun(content + rest) == |content|
  {
    hide Starred;
    if content == [] {
      assert content + rest == rest;
    } else {
      assert (content + rest)[1..] == content[1..] + rest;
      RunOfContent(content[1..], rest);
    }
  }

  lemma {:induction false} RunIsContent(lines: seq<string>)
    ensures NoneStarred(lines[..ContentRun(lines)])
    ensures lines[ContentRun(lines)..] == [] || Starred(lines[ContentRun(lines)..][0])
  {
    hide Starred;
    if lines != [] && !Starred(lines[0]) {
      RunIsContent(lines[1..]);
      var k := ContentRun(lines[1..]);
      assert lines[..k + 1][1..] == lines[1..][..k];
      assert lines[k + 1..] == lines[1..][k..];
    }
  }

  lemma {:induction false} PlusReadsBack(lines: seq<string>)
    ensures AllPlus(PlusLines(lines)) && WithoutFirst(PlusLines(lines)) == lines && NoneStarred(PlusLines(lines))
  {
    if lines != [] {
      PlusReadsBack(lines[1..]);
      var line := "+" + lines[0];
      assert line[1..] == lines[0] && ([line] + PlusLines(lines[1..]))[1..] == PlusLines(lines[1..]);
      assert [lines[0]] + lines[1..] == lines;
    }
  }

  lemma {:induction false} PlusIsPrinted(lines: seq<string>)
    requires AllPlus(lines)
    ensures PlusLines(WithoutFirst(lines)) == lines
  {
    if lines != [] {
      PlusIsPrinted(lines[1..]);
      assert WithoutFirst(lines)[1..] == WithoutFirst(lines[1..]);
      assert "+" + lines[0][1..] == lines[0];
      assert [lines[0]] + lines[1..] == lines;
    }
  }

  lemma {:induction false} ContentReadsBack(entry: Entry)
    requires ProperEntry(entry)
    ensures NoneStarred(PrintContent(entry)) && ReadContent(entry.action, PrintContent(entry)) == Ok(entry.content)
  {
    PlusReadsBack(entry.content);
  }

  lemma {:induction false} ContentIsPrinted(action: Action, raw: string, lines: seq<string>)
    requires raw != "" && '\n' !in raw && NoneStarred(lines) && ReadContent(action, lines).Ok?
    ensures var entry := Entry(action, raw, ReadContent(action, lines).value);
            ProperEntry(entry) && PrintContent(entry) == lines
  {
    if action.Add? { PlusIsPrinted(lines); }
  }

  lemma {:induction false} EntriesStart(entries: seq<Entry>)
    ensures PrintEntries(entries) == [] || Starred(PrintEntries(entries)[0])
    ensures entries == [] <==> PrintEntries(entries) == []
  {
    if entries != [] { HeaderReadsBack(entries[0].action, entries[0].raw); }
  }

  lemma {:induction false} PrintedIsParsed(entries: seq<Entry>, seen: set<string>, fold: string -> string)
    requires ProperEntries(entries, seen, fold)
    ensures Entries(PrintEntries(entries), seen, fold) == Ok(entries)
    decreases |entries|
  {
    hide ReadHeader, ProperEntry, ReadContent, PrintContent, Prefix, Starred, Slashed;
    if entries != [] {
      var e := entries[0];
      var header, content, rest := Prefix(e.action) + e.raw, PrintContent(e), PrintEntries(entries[1..]);
      PrintedIsParsed(entries[1..], seen + {fold(Slashed(e.raw))}, fold);
      ProperParts(e);
      HeaderReadsBack(e.action, e.raw);
      ContentReadsBack(e);
      EntriesStart(entries[1..]);
      RunOfContent(content, rest);
      var inner := PrintEntries(entries);
      assert inner[1..] == content + rest;
      assert (content + rest)[..|content|] == content && (content + rest)[|content|..] == rest;
      assert [e] + entries[1..] == entries;
    }
  }

  lemma {:induction false} ProperParts(entry: Entry)
    requires ProperEntry(entry)
    ensures entry.raw != "" && '\n' !in entry.raw
  {
  }

  /** One accepted entry: its parts, and the reading of the lines behind it. */
  lemma {:induction false} FirstEntry(inner: seq<string>, seen: set<string>, fold: string -> string)
    returns (entry: Entry, k: nat)
    requires inner != [] && Entries(inner, seen, fold).Ok?
    ensures k <= |inner| - 1 && ProperEntry(entry) && fold(Slashed(entry.raw)) !in seen
    ensures inner[0] == Prefix(entry.action) + entry.raw && PrintContent(entry) == inner[1..][..k]
    ensures var rest := Entries(inner[1..][k..], seen + {fold(Slashed(entry.raw))}, fold);
            rest.Ok? && Entries(inner, seen, fold) == Ok([entry] + rest.value)
  {
    hide ReadHeader, ProperEntry, ReadContent, PrintContent, Prefix, Starred, Slashed;
    var (action, raw) := ReadHeader(inner[0]).value;
    k := ContentRun(inner[1..]);
    HeaderIsPrefix(inner[0]);
    RunIsContent(inner[1..]);
    ContentIsPrinted(action, raw, inner[1..][..k]);
    entry := Entry(action, raw, ReadContent(action, inner[1..][..k]).value);
  }

  lemma {:induction false} PrintsFirst(entry: Entry, rest: seq<Entry>, seen: set<string>, fold: string -> string)
    ensures PrintEntries([entry] + rest)
            == [Prefix(entry.action) + entry.raw] + PrintContent(entry) + PrintEntries(rest)
    ensures ProperEntries([entry] + rest, seen, fold)
            <==> ProperEntry(entry) && fold(Slashed(entry.raw)) !in seen
                 && ProperEntries(rest, seen + {fold(Slashed(entry.raw))}, fold)
  {
    hide ProperEntry, PrintContent, Prefix, Slashed;
    assert ([entry] + rest)[1..] == rest;
  }

  lemma {:induction false} ParsedIsPrinted(inner: seq<string>, seen: set<string>, fold: string -> string)
    requires Entries(inner, seen, fold).Ok?
    ensures PrintEntries(Entries(inner, seen, fold).value) == inner
    ensures ProperEntries(Entries(inner, seen, fold).value, seen, fold)
    decreases |inner|
  {
    hide *;
    if inner == [] {
      NoEntries(seen, fold);
    } else {
      var entry, k := FirstEntry(inner, seen, fold);
      var tail := inner[1..][k..];
      ParsedIsPrinted(tail, seen + {fold(Slashed(entry.raw))}, fold);
      PrintsFirst(entry, Entries(tail, seen + {fold(Slashed(entry.raw))}, fold).value, seen, fold);
      Rejoined(inner, k);
    }
  }

  lemma {:induction false} NoEntries(seen: set<string>, fold: string -> string)
    ensures Entries([], seen, fold) == Ok([]) && PrintEntries([]) == [] && ProperEntries([], seen, fold)
  {
  }

  lemma {:induction false} Rejoined(inner: seq<string>, k: nat)
    requires inner != [] && k <= |inner| - 1
    ensures [inner[0]] + inner[1..][..k] + inner[1..][k..] == inner
  {
  }

  /** Lines are accepted as entries exactly when they are the print of proper entries: nothing of
      the content is lost, moved or invented. */
  lemma {:induction false} ParseIsInverseOfPrint(inner: seq<string>, entries: seq<Entry>, fold: string -> string)
    ensures Entries(inner, {}, fold) == Ok(entries)
            <==> inner == PrintEntries(entries) && ProperEntries(entries, {}, fold)
  {
    hide *;
    if Entries(inner, {}, fold).Ok? { ParsedIsPrinted(inner, {}, fold); }
    if ProperEntries(entries, {}, fold) { PrintedIsParsed(entries, {}, fold); }
  }

  lemma {:induction false} FoldedPathsDiffer(entries: seq<Entry>, seen: set<string>, fold: string -> string)
    requires ProperEntries(entries, seen, fold)
    ensures forall i | 0 <= i < |entries| :: fold(Slashed(entries[i].raw)) !in seen
    ensures forall i, j | 0 <= i < j < |entries| :: fold(Slashed(entries[i].raw)) != fold(Slashed(entries[j].raw))
  {
    hide ProperEntry, Slashed;
    if entries != [] {
      var first := fold(Slashed(entries[0].raw));
      FoldedPathsDiffer(entries[1..], seen + {first}, fold);
      forall i, j | 0 <= i < j < |entries|
        ensures fold(Slashed(entries[i].raw)) != fold(Slashed(entries[j].raw))
      {
        assert entries[j] == entries[1..][j - 1];
        if i > 0 { assert entries[i] == entries[1..][i - 1]; }
      }
      forall i | 0 <= i < |entries| ensures fold(Slashed(entries[i].raw)) !in seen {
        if i > 0 { assert entries[i] == entries[1..][i - 1]; }
      }
    }
  }

  lemma {:induction false} OpsAt(entries: seq<Entry>, i: nat)
    requires i < |entries|
    ensures |OpsOf(entries)| == |entries| && OpsOf(entries)[i] == OpOf(entries[i])
  {
    hide OpOf;
    if |entries| > 1 {
      OpsAt(entries[..|entries| - 1], if i < |entries| - 1 then i else 0);
    } else {
      assert OpsOf(entries[..0]) == [];
    }
  }

  /** The operations of an accepted patch, in either format, never name one file twice, so the duplicate
      check of the patch application cannot fire on them. */
  lemma {:induction false} OperationsNameDistinctFiles(body: string, fold: string -> string, i: nat, j: nat)
    requires ParseEnvelope(body, fold).Ok? && i < j < |ParseEnvelope(body, fold).value|
    ensures var ops := ParseEnvelope(body, fold).value;
            fold(ops[i].path) != fold(ops[j].path)
  {
    hide IsUnified, UnifiedFiles, Entries, Lines, Inner, OpsOf, IsEnvelope;
    if IsUnified(body) {
      DiffNamesDistinctFiles(body, fold, i, j);
    } else {
      EntriesNameDistinctFiles(Inner(Lines(body).value), fold, i, j);
    }
  }

  lemma {:induction false} DiffNamesDistinctFiles(body: string, fold: string -> string, i: nat, j: nat)
    requires UnifiedFiles(body, fold).Ok? && i < j < |UnifiedFiles(body, fold).value|
    ensures var files := UnifiedFiles(body, fold).value;
            fold(files[i].path) != fold(files[j].path)
  {
    hide Files, ProperFiles, Lines;
    AcceptedFilesAreProper(Lines(body).value, {}, fold, Style(body));
    FilesNameDistinctPaths(UnifiedFiles(body, fold).value, {}, fold, Style(body));
  }

  lemma {:induction false} EntriesNameDistinctFiles(inner: seq<string>, fold: string -> string, i: nat, j: nat)
    requires Entries(inner, {}, fold).Ok? && i < j < |OpsOf(Entries(inner, {}, fold).value)|
    ensures var ops := OpsOf(Entries(inner, {}, fold).value);
            fold(ops[i].path) != fold(ops[j].path)
  {
    hide *;
    var entries := Entries(inner, {}, fold).value;
    ParseIsInverseOfPrint(inner, entries, fold);
    FoldedPathsDiffer(entries, {}, fold);
    OpsCount(entries);
    OpsAt(entries, i);
    OpsAt(entries, j);
    OpPath(entries[i]);
    OpPath(entries[j]);
  }

  lemma {:induction false} OpsCount(entries: seq<Entry>)
    ensures |OpsOf(entries)| == |entries|
  {
    hide OpOf;
    if entries != [] { OpsCount(entries[..|entries| - 1]); }
  }

  lemma {:induction false} OpPath(entry: Entry)
    ensures OpOf(entry).path == Slashed(entry.raw)
  {
    hide Slashed;
  }

  /** The patch engine reads an operation's diff back as exactly the entry's content lines. */
  lemma {:induction false} DiffReadsBack(entry: Entry)
    requires forall line | line in entry.content :: NoBreaks(line)
    ensures Lines(OpOf(entry).diff) == Ok(entry.content)
  {
    if entry.content == [] {
      assert CollapseCrlf("") == "" && Readable("");
    } else {
      JoinedLinesReadBack(entry.content, LF);
      LfIsIdentity(Join(entry.content) + "\n");
      hide Readable, BareLines, CollapseCrlf, Join, Expand;
    }
  }

  // ----- the parser

  method ReadRun(inner: seq<string>, start: nat) returns (content: seq<string>, end: nat)
    requires start <= |inner|
    ensures end == start + ContentRun(inner[start..]) <= |inner|
    ensures content == inner[start..][..ContentRun(inner[start..])]
  {
    content, end := [], start;
    while end < |inner| && !Starred(inner[end])
      invariant start <= end <= |inner|
      invariant content == inner[start..end]
      invariant ContentRun(inner[start..]) == end - start + ContentRun(inner[end..])
    {
      assert inner[end..][1..] == inner[end + 1..];
      content := content + [inner[end]];
      end := end + 1;
    }
    assert inner[start..][..end - start] == inner[start..end];
  }

  method ReadEntries(inner: seq<string>, fold: string -> string) returns (r: Result<seq<Entry>, EnvelopeError>)
    ensures r == Entries(inner, {}, fold)
  {
    hide Entries, ReadHeader, ReadContent, Slashed, ContentRun;
    var entries: seq<Entry> := [];
    var seen: set<string> := {};
    var i := 0;
    assert inner[0..] == inner;
    AfterNothing(Entries(inner, {}, fold));
    while i < |inner|
      invariant 0 <= i <= |inner|
      invariant Entries(inner, {}, fold) == After(entries, Entries(inner[i..], seen, fold))
    {
      EntriesStep(inner, i, seen, fold);
      var header := ReadHeader(inner[i]);
      if header.None? { return Err(UnexpectedContent); }
      var (action, raw) := header.value;
      var path := fold(Slashed(raw));
      if path in seen { return Err(DuplicatePath); }
      seen := seen + {path};
      var lines, end := ReadRun(inner, i + 1);
      var content := ReadContent(action, lines);
      if content.Err? { return Err(content.error); }
      AfterTwice(entries, [Entry(action, raw, content.value)], Entries(inner[end..], seen, fold));
      entries := entries + [Entry(action, raw, content.value)];
      i := end;
    }
    NoEntriesLeft(inner, seen, fold);
    assert entries + [] == entries;
    return Ok(entries);
  }

  lemma {:induction false} NoEntriesLeft(inner: seq<string>, seen: set<string>, fold: string -> string)
    ensures Entries(inner[|inner|..], seen, fold) == Ok([])
  {
  }

  lemma {:induction false} AfterNothing(r: Result<seq<Entry>, EnvelopeError>)
    ensures After([], r) == r
  {
    if r.Ok? { assert [] + r.value == r.value; }
  }

  lemma {:induction false} AfterTwice(a: seq<Entry>, b: seq<Entry>, r: Result<seq<Entry>, EnvelopeError>)
    ensures After(a, After(b, r)) == After(a + b, r)
  {
    if r.Ok? { assert a + (b + r.value) == a + b + r.value; }
  }

  lemma {:induction false} EntriesStep(inner: seq<string>, i: nat, seen: set<string>, fold: string -> string)
    requires i < |inner|
    ensures Entries(inner[i..], seen, fold)
         == match ReadHeader(inner[i])
            case None => Err(UnexpectedContent)
            case Some(header) =>
              if fold(Slashed(header.1)) in seen then Err(DuplicatePath)
              else
                match ReadContent(header.0, inner[i + 1..][..ContentRun(inner[i + 1..])])
                case Err(e) => Err(e)
                case Ok(content) =>
                  After([Entry(header.0, header.1, content)],
                        Entries(inner[i + 1 + ContentRun(inner[i + 1..])..], seen + {fold(Slashed(header.1))}, fold))
  {
    hide ReadHeader, ReadContent, Slashed, ContentRun;
    assert inner[i..][1..] == inner[i + 1..];
    var k := ContentRun(inner[i + 1..]);
    assert inner[i + 1..][k..] == inner[i + 1 + k..];
  }

  /** The whole reading of a text, fences first. */
  function ParsePatchText(chars: Chars, text: string, fold: string -> string): Result<seq<FileOp>, EnvelopeError> {
    ParseEnvelope(Stripped(chars, text), fold)
  }

  method ParseApplyPatchText(chars: Chars, text: string, fold: string -> string)
    returns (r: Result<seq<FileOp>, EnvelopeError>)
    ensures r == ParsePatchText(chars, text, fold)
  {
    hide Entries, Readable, BareLines, CollapseCrlf, OpOf, FileOpOf, StartsWith, Stripped, UnifiedFiles;
    var body := StripFences(chars, text);
    if IsUnified(body) {
      var files := ParseUnifiedPatch(body, fold);
      if files.Err? { return Err(RefusedDiff(files.error)); }
      return Ok(FileOpsOf(files.value));
    }
    var lines := Lines(body);
    if lines.Err? { return Err(Unreadable); }
    if !IsEnvelope(lines.value) { return Err(NotAnEnvelope); }
    var entries := ReadEntries(Inner(lines.value), fold);
    if entries.Err? { return Err(entries.error); }
    if entries.value == [] { return Err(EmptyInput); }
    var ops: seq<FileOp> := [];
    for i := 0 to |entries.value|
      invariant ops == OpsOf(entries.value[..i])
    {
      assert entries.value[..i + 1][..i] == entries.value[..i];
      ops := ops + [OpOf(entries.value[i])];
    }
    assert entries.value[..|entries.value|] == entries.value;
    return Ok(ops);
  }
}
