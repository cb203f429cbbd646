/** Multi-file unified diffs: `---`/`+++` headers with their paths and modes, and hunks for each file. */
module PatchUnified {
  import opened Results
  import opened Sequences
  import opened PatchText
  import opened PatchHunks
  import opened PatchOperations

  const OLD := "--- "
  const NEW := "+++ "
  const NULL_PATH := "/dev/null"

  // ----- paths

  /** text.split(sep, 1)[0] */
  function Before(text: string, sep: char): string {
    if text == "" || text[0] == sep then "" else [text[0]] + Before(text[1..], sep)
  }

  /** text.split("/") */
  function Parts(text: string): (parts: seq<string>)
    ensures parts != []
  {
    if text == "" then [""]
    else
      var rest := Parts(text[1..]);
      if text[0] == '/' then [""] + rest else [[text[0]] + rest[0]] + rest[1..]
  }

  /** Relative, without empty, current or parent parts, and without the characters that are refused. */
  predicate SafePath(path: string) {
    && path != "" && path[0] != '"' && path[0] != '/' && '\\' !in path && ':' !in path
    && forall part | part in Parts(path) :: part != "" && part != "." && part != ".."
  }

  /** The path of a header line; None is the null path. */
  function PathOf(header: string, prefix: string): Result<Option<string>, PatchError> {
    var value := Before(if |header| >= 4 then header[4..] else "", '\t');
    if value == NULL_PATH then Ok(None)
    else
      var path := if StartsWith(value, prefix) then value[|prefix|..] else value;
      if SafePath(path) then Ok(Some(path)) else Err(InvalidPatch)
  }

  // ----- the lines in front of the headers

  datatype Mode = Unstated | Created | Deleted

  /** Git's lines in any order, with at most one mode line. */
  function Preamble(lines: seq<string>, mode: Mode): (r: Result<(seq<string>, Mode), PatchError>)
    ensures r.Ok? ==> |r.value.0| <= |lines|
  {
    if lines == [] then Ok((lines, mode))
    else if StartsWith(lines[0], "diff --git ") || StartsWith(lines[0], "index ") then Preamble(lines[1..], mode)
    else if lines[0] == "new file mode 100644" then
      if mode.Unstated? then Preamble(lines[1..], Created) else Err(InvalidPatch)
    else if lines[0] == "deleted file mode 100644" then
      if mode.Unstated? then Preamble(lines[1..], Deleted) else Err(InvalidPatch)
    else Ok((lines, mode))
  }

  // ----- the files

  /** The path and action two header paths stand for: no rename, not two null paths. */
  function Target(before: Option<string>, after: Option<string>): Option<(string, string)> {
    match (before, after)
    case (None, None) => None
    case (None, Some(path)) => Some((path, "add"))
    case (Some(path), None) => Some((path, "delete"))
    case (Some(a), Some(b)) => if a == b then Some((a, "update")) else None
  }

  predicate Agrees(mode: Mode, action: string) {
    (mode.Created? ==> action == "add") && (mode.Deleted? ==> action == "delete")
  }

  /** The headers of one file: its path and action, and the lines behind them. */
  function Headers(lines: seq<string>): (r: Result<(string, string, seq<string>), PatchError>)
    ensures r.Ok? ==> |r.value.2| < |lines|
  {
    match Preamble(lines, Unstated)
    case Err(e) => Err(e)
    case Ok((rest, mode)) =>
      if |rest| < 2 || !StartsWith(rest[0], OLD) || !StartsWith(rest[1], NEW) then Err(InvalidPatch)
      else
        match PathOf(rest[0], "a/")
        case Err(e) => Err(e)
        case Ok(before) =>
          match PathOf(rest[1], "b/")
          case Err(e) => Err(e)
          case Ok(after) =>
            match Target(before, after)
            case None => Err(InvalidPatch)
            case Some((path, action)) =>
              if Agrees(mode, action) then Ok((path, action, rest[2..])) else Err(InvalidPatch)
  }

  function Files(lines: seq<string>, seen: set<string>, fold: string -> string, newline: string)
    : Result<seq<FilePatch>, PatchError>
    decreases |lines|
  {
    if lines == [] then Ok([])
    else
      match Headers(lines)
      case Err(e) => Err(e)
      case Ok((path, action, body)) =>
        if fold(path) in seen then Err(InvalidPatch)
        else
          match ParseHunks(body)
          case Err(e) => Err(e)
          case Ok((hunks, rest)) =>
            HunksConsume(body);
            if hunks == [] && action == "update" then Err(InvalidPatch)
            else Behind([FilePatch(path, action, Diff(hunks, newline))],
                        Files(rest, seen + {fold(path)}, fold, newline))
  }

  function Behind(done: seq<FilePatch>, r: Result<seq<FilePatch>, PatchError>): Result<seq<FilePatch>, PatchError> {
    if r.Err? then r else Ok(done + r.value)
  }

  /** parse_unified_patch */
  function UnifiedFiles(diff: string, fold: string -> string): Result<seq<FilePatch>, PatchError> {
    if diff == "" then Err(InvalidPatch)
    else
      match Lines(diff)
      case Err(e) => Err(e)
      case Ok(lines) => Files(lines, {}, fold, Style(diff))
  }

  /** Hunks never give back more lines than they were given. */
  lemma {:induction false} HunksConsume(lines: seq<string>)
    requires ParseHunks(lines).Ok?
    ensures |ParseHunks(lines).value.1| <= |lines|
  {
    PrintParsedHunks(lines);
  }

  // ----- the parser

  method SkipPreamble(lines: seq<string>, start: nat) returns (r: Result<(nat, Mode), PatchError>)
    requires start <= |lines|
    ensures match Preamble(lines[start..], Unstated)
            case Err(e) => r == Err(e)
            case Ok((rest, mode)) =>
              r.Ok? && start <= r.value.0 <= |lines| && lines[r.value.0..] == rest && r.value.1 == mode
  {
    hide StartsWith;
    var i, mode := start, Unstated;
    while i < |lines|
      invariant start <= i <= |lines|
      invariant Preamble(lines[start..], Unstated) == Preamble(lines[i..], mode)
    {
      var line := lines[i];
      assert lines[i..][0] == line && lines[i..][1..] == lines[i + 1..];
      if StartsWith(line, "diff --git ") || StartsWith(line, "index ") {
        i := i + 1;
        continue;
      }
      if line == "new file mode 100644" || line == "deleted file mode 100644" {
        if mode != Unstated { return Err(InvalidPatch); }
        mode := if line == "new file mode 100644" then Created else Deleted;
        i := i + 1;
        continue;
      }
      break;
    }
    return Ok((i, mode));
  }

  method ReadHeaders(lines: seq<string>, start: nat) returns (r: Result<(string, string, nat), PatchError>)
    requires start <= |lines|
    ensures match Headers(lines[start..])
            case Err(e) => r == Err(e)
            case Ok((path, action, rest)) =>
              r.Ok? && r.value.0 == path && r.value.1 == action && start < r.value.2 <= |lines|
              && lines[r.value.2..] == rest
  {
    hide Preamble, PathOf, StartsWith;
    var preamble := SkipPreamble(lines, start);
    if preamble.Err? { return Err(preamble.error); }
    var (i, mode) := preamble.value;
    assert forall j | i <= j < |lines| :: lines[i..][j - i] == lines[j];
    if i + 1 >= |lines| || !StartsWith(lines[i], OLD) || !StartsWith(lines[i + 1], NEW) { return Err(InvalidPatch); }
    var before, after := PathOf(lines[i], "a/"), PathOf(lines[i + 1], "b/");
    if before.Err? { return Err(before.error); }
    if after.Err? { return Err(after.error); }
    var old_, new_ := before.value, after.value;
    if (old_.None? && new_.None?) || (old_.Some? && new_.Some? && old_ != new_) { return Err(InvalidPatch); }
    var action := if old_.None? then "add" else if new_.None? then "delete" else "update";
    if mode != Unstated && mode
      != (if action == "add" then Created else if action == "delete" then Deleted else Unstated)
    {
      return Err(InvalidPatch);
    }
    assert lines[i..][2..] == lines[i + 2..];
    return Ok((if new_.Some? then new_.value else old_.value, action, i + 2));
  }

  method ParseUnifiedPatch(diff: string, fold: string -> string) returns (r: Result<seq<FilePatch>, PatchError>)
    ensures r == UnifiedFiles(diff, fold)
  {
    hide Files, Headers, ParseHunks, Readable, BareLines, CollapseCrlf, HasCrlf;
    if diff == "" { return Err(InvalidPatch); }
    var all := Lines(diff);
    if all.Err? { return Err(all.error); }
    var lines, newline := all.value, Style(diff);
    var files: seq<FilePatch> := [];
    var seen: set<string> := {};
    var i := 0;
    assert lines[0..] == lines;
    BehindNothing(Files(lines, {}, fold, newline));
    while i < |lines|
      invariant 0 <= i <= |lines|
      invariant Files(lines, {}, fold, newline) == Behind(files, Files(lines[i..], seen, fold, newline))
    {
      FilesStep(lines[i..], seen, fold, newline);
      var headers := ReadHeaders(lines, i);
      if headers.Err? { return Err(headers.error); }
      var (path, action, next) := headers.value;
      if fold(path) in seen { return Err(InvalidPatch); }
      var parsed := ParseHunksAt(lines, next);
      if parsed.Err? { return Err(parsed.error); }
      var hunks := parsed.value.0;
      if hunks == [] && action == "update" { return Err(InvalidPatch); }
      HunksConsume(lines[next..]);
      var file := FilePatch(path, action, Diff(hunks, newline));
      BehindTwice(files, [file], Files(lines[parsed.value.1..], seen + {fold(path)}, fold, newline));
      files, seen := files + [file], seen + {fold(path)};
      i := parsed.value.1;
    }
    FilesEnd(lines, seen, fold, newline);
    BehindEnd(files);
    return Ok(files);
  }

  lemma {:induction false} BehindNothing(r: Result<seq<FilePatch>, PatchError>)
    ensures Behind([], r) == r
  {
    if r.Ok? { assert [] + r.value == r.value; }
  }

  lemma {:induction false} BehindEnd(files: seq<FilePatch>)
    ensures Behind(files, Ok([])) == Ok(files)
  {
    assert files + [] == files;
  }

  lemma {:induction false} BehindTwice(a: seq<FilePatch>, b: seq<FilePatch>, r: Result<seq<FilePatch>, PatchError>)
    ensures Behind(a, Behind(b, r)) == Behind(a + b, r)
  {
    if r.Ok? { assert a + (b + r.value) == a + b + r.value; }
  }

  lemma {:induction false} FilesEnd(lines: seq<string>, seen: set<string>, fold: string -> string, newline: string)
    ensures Files(lines[|lines|..], seen, fold, newline) == Ok([])
  {
  }

  lemma {:induction false} FilesStep(lines: seq<string>, seen: set<string>, fold: string -> string, newline: string)
    requires lines != []
    ensures Files(lines, seen, fold, newline) ==
            match Headers(lines)
            case Err(e) => Err(e)
            case Ok((path, action, body)) =>
              if fold(path) in seen then Err(InvalidPatch)
              else
                match ParseHunks(body)
                case Err(e) => Err(e)
                case Ok((hunks, rest)) =>
                  if hunks == [] && action == "update" then Err(InvalidPatch)
                  else
                    Behind([FilePatch(path, action, Diff(hunks, newline))],
                           Files(rest, seen + {fold(path)}, fold, newline))
  {
    hide Headers, ParseHunks;
    if Headers(lines).Ok? && ParseHunks(Headers(lines).value.2).Ok? { HunksConsume(Headers(lines).value.2); }
  }

  // ----- what is accepted

  /** A file patch that can be written as a unified diff. */
  predicate ProperFile(file: FilePatch, newline: string) {
    && SafePath(file.path) && '\t' !in file.path
    && (file.action == "add" || file.action == "update" || file.action == "delete")
    && file.plan.Diff? && ValidHunks(file.plan.hunks) && file.plan.newline == newline
    && (file.action == "update" ==> file.plan.hunks != [])
  }

  predicate ProperFiles(files: seq<FilePatch>, seen: set<string>, fold: string -> string, newline: string) {
    files != [] ==>
      && ProperFile(files[0], newline) && fold(files[0].path) !in seen
      && ProperFiles(files[1..], seen + {fold(files[0].path)}, fold, newline)
  }

  function PrintHeader(mark: string, path: Option<string>, prefix: string): string {
    mark + if path.None? then NULL_PATH else prefix + path.value
  }

  /** The file as a unified diff without preamble. */
  function PrintFile(file: FilePatch): seq<string>
    requires file.plan.Diff?
  {
    [PrintHeader(OLD, if file.action == "add" then None else Some(file.path), "a/"),
     PrintHeader(NEW, if file.action == "delete" then None else Some(file.path), "b/")]
    + PrintHunks(file.plan.hunks)
  }

  function PrintFiles(files: seq<FilePatch>): seq<string>
    requires forall file | file in files :: file.plan.Diff?
  {
    if files == [] then [] else PrintFile(files[0]) + PrintFiles(files[1..])
  }

  lemma {:induction false} BeforeIs(text: string, sep: char)
    ensures sep !in Before(text, sep)
    ensures sep !in text ==> Before(text, sep) == text
  {
    if text != "" && text[0] != sep {
      BeforeIs(text[1..], sep);
      assert text == [text[0]] + text[1..];
    }
  }

  lemma {:induction false} PathIsSafe(header: string, prefix: string)
    requires '\t' !in prefix && PathOf(header, prefix).Ok? && PathOf(header, prefix).value.Some?
    ensures var path := PathOf(header, prefix).value.value;
            SafePath(path) && '\t' !in path
  {
    hide SafePath;
    BeforeIs(if |header| >= 4 then header[4..] else "", '\t');
  }

  /** A printed header gives its path back, whatever the path begins with. */
  lemma {:induction false} HeaderReadsBack(mark: string, path: Option<string>, prefix: string)
    requires |mark| == 4 && |prefix| == 2 && prefix[0] != '/' && '\t' !in prefix
    requires path.Some? ==> SafePath(path.value) && '\t' !in path.value
    ensures PathOf(PrintHeader(mark, path, prefix), prefix) == Ok(path)
    ensures StartsWith(PrintHeader(mark, path, prefix), mark)
  {
    var value := if path.None? then NULL_PATH else prefix + path.value;
    assert (mark + value)[4..] == value && (mark + value)[..4] == mark;
    BeforeIs(value, '\t');
    if path.Some? {
      assert value[0] == prefix[0] && value[..2] == prefix && value[2..] == path.value;
    }
    hide SafePath;
  }

  lemma {:induction false} FirstIs(text: string, prefix: string)
    requires prefix != "" && StartsWith(text, prefix)
    ensures text[0] == prefix[0]
  {
    assert text[..|prefix|][0] == text[0];
  }

  lemma {:induction false} MarksAreNoPreamble(text: string)
    requires StartsWith(text, OLD)
    ensures !StartsWith(text, "diff --git ") && !StartsWith(text, "index ")
    ensures text != "new file mode 100644" && text != "deleted file mode 100644"
    ensures !StartsHunk(text) && text != NoNewlineMarker()
  {
    FirstIs(text, OLD);
    if StartsWith(text, "diff --git ") { FirstIs(text, "diff --git "); }
    if StartsWith(text, "index ") { FirstIs(text, "index "); }
  }

  lemma {:induction false} HeadersReadBack(file: FilePatch, newline: string, rest: seq<string>)
    requires ProperFile(file, newline)
    ensures Headers(PrintFile(file) + rest) == Ok((file.path, file.action, PrintHunks(file.plan.hunks) + rest))
  {
    hide SafePath, PathOf, StartsWith, ValidHunks, PrintHunks;
    var before := if file.action == "add" then None else Some(file.path);
    var after := if file.action == "delete" then None else Some(file.path);
    HeaderReadsBack(OLD, before, "a/");
    HeaderReadsBack(NEW, after, "b/");
    var lines := PrintFile(file) + rest;
    MarksAreNoPreamble(lines[0]);
    assert Preamble(lines, Unstated) == Ok((lines, Unstated));
    assert lines[2..] == PrintHunks(file.plan.hunks) + rest;
  }

  lemma {:induction false} FilesStart(files: seq<FilePatch>)
    requires forall file | file in files :: file.plan.Diff?
    ensures PrintFiles(files) != [] ==> PrintFiles(files)[0] != NoNewlineMarker() && !StartsHunk(PrintFiles(files)[0])
    ensures files == [] <==> PrintFiles(files) == []
  {
    if files != [] {
      var first := PrintHeader(OLD, if files[0].action == "add" then None else Some(files[0].path), "a/");
      assert PrintFiles(files)[0] == first && first[..4] == OLD;
      MarksAreNoPreamble(first);
    }
  }

  lemma {:induction false} ProperHead(files: seq<FilePatch>, seen: set<string>, fold: string -> string, newline: string)
    requires files != [] && ProperFiles(files, seen, fold, newline)
    ensures ProperFile(files[0], newline) && fold(files[0].path) !in seen
    ensures ProperFiles(files[1..], seen + {fold(files[0].path)}, fold, newline)
    ensures files[0].plan == Diff(files[0].plan.hunks, newline) && ValidHunks(files[0].plan.hunks)
    ensures files[0].plan.hunks == [] ==> files[0].action != "update"
  {
    hide SafePath, ValidHunks;
  }

  lemma {:induction false} ProperAreDiffs(files: seq<FilePatch>, seen: set<string>, fold: string -> string,
                                          newline: string)
    requires ProperFiles(files, seen, fold, newline)
    ensures forall file | file in files :: file.plan.Diff?
  {
    hide SafePath, ValidHunks;
    if files != [] {
      ProperAreDiffs(files[1..], seen + {fold(files[0].path)}, fold, newline);
      assert files == [files[0]] + files[1..];
    }
  }

  /** Proper file patches, printed, are parsed back as they are. */
  lemma {:induction false} PrintedFilesAreParsed(files: seq<FilePatch>, seen: set<string>, fold: string -> string,
                                                 newline: string)
    requires ProperFiles(files, seen, fold, newline)
    ensures forall file | file in files :: file.plan.Diff?
    ensures Files(PrintFiles(files), seen, fold, newline) == Ok(files)
  {
    ProperAreDiffs(files, seen, fold, newline);
    if files != [] {
      PrintedStep(files, seen, fold, newline);
    }
  }

  lemma {:induction false} PrintedStep(files: seq<FilePatch>, seen: set<string>, fold: string -> string,
                                       newline: string)
    requires files != [] && ProperFiles(files, seen, fold, newline)
    requires forall file | file in files :: file.plan.Diff?
    ensures Files(PrintFiles(files), seen, fold, newline) == Ok(files)
    decreases |files|, 0
  {
    hide *;
    var file, more := files[0], files[1..];
    ProperHead(files, seen, fold, newline);
    var rest := PrintFiles(more);
    var known := seen + {fold(file.path)};
    if more == [] { FilesStart(more); FilesEnd([], known, fold, newline); }
      else { PrintedStep(more, known, fold, newline); }
    FilesStart(more);
    FilesStart(files);
    PrintUnfolds(files);
    HeadersReadBack(file, newline, rest);
    ParsePrintedHunks(file.plan.hunks, rest);
    FilesStep(PrintFiles(files), seen, fold, newline);
    BehindOne(file, more);
    assert files == [file] + more;
  }

  lemma {:induction false} PrintUnfolds(files: seq<FilePatch>)
    requires files != [] && forall file | file in files :: file.plan.Diff?
    ensures PrintFiles(files) == PrintFile(files[0]) + PrintFiles(files[1..])
  {
    hide PrintFile;
  }

  lemma {:induction false} BehindOne(file: FilePatch, more: seq<FilePatch>)
    ensures Behind([file], Ok(more)) == Ok([file] + more)
  {
  }

  lemma {:induction false} BehindOk(file: FilePatch, r: Result<seq<FilePatch>, PatchError>)
    ensures Behind([file], r).Ok? <==> r.Ok?
  {
  }

  lemma {:induction false} HeadersAreProper(lines: seq<string>)
    requires Headers(lines).Ok?
    ensures var (path, action, _) := Headers(lines).value;
            && SafePath(path) && '\t' !in path && (action == "add" || action == "update" || action == "delete")
  {
    hide SafePath, PathOf, StartsWith, Preamble;
    var rest := Preamble(lines, Unstated).value.0;
    if PathOf(rest[0], "a/").value.Some? { PathIsSafe(rest[0], "a/"); }
    if PathOf(rest[1], "b/").value.Some? { PathIsSafe(rest[1], "b/"); }
  }

  /** Every accepted diff consists of proper file patches: safe paths, no two of which fold together,
      valid hunks, and hunks wherever a file is updated. */
  lemma {:induction false} AcceptedFilesAreProper(lines: seq<string>, seen: set<string>, fold: string -> string,
                                                  newline: string)
    requires Files(lines, seen, fold, newline).Ok?
    ensures ProperFiles(Files(lines, seen, fold, newline).value, seen, fold, newline)
    ensures lines == [] <==> Files(lines, seen, fold, newline).value == []
    decreases |lines|
  {
    hide *;
    if lines == [] {
      NothingIsProper(seen, fold, newline);
    } else {
      FilesStep(lines, seen, fold, newline);
      var (path, action, body) := Headers(lines).value;
      var (hunks, rest) := ParseHunks(body).value;
      HeadersAreProper(lines);
      PrintParsedHunks(body);
      HunksConsume(body);
      var file, behind := FilePatch(path, action, Diff(hunks, newline)),
                          Files(rest, seen + {fold(path)}, fold, newline);
      BehindOk(file, behind);
      AcceptedFilesAreProper(rest, seen + {fold(path)}, fold, newline);
      var more := behind.value;
      BehindOne(file, more);
      ProperCons(file, more, seen, fold, newline);
    }
  }

  lemma {:induction false} NothingIsProper(seen: set<string>, fold: string -> string, newline: string)
    ensures ProperFiles([], seen, fold, newline) && Files([], seen, fold, newline) == Ok([])
  {
  }

  lemma {:induction false} ProperCons(file: FilePatch, more: seq<FilePatch>, seen: set<string>, fold: string -> string,
                                      newline: string)
    requires SafePath(file.path) && '\t' !in file.path && fold(file.path) !in seen
    requires file.action == "add" || file.action == "update" || file.action == "delete"
    requires file.plan.Diff? && ValidHunks(file.plan.hunks) && file.plan.newline == newline
    requires file.action == "update" ==> file.plan.hunks != []
    requires ProperFiles(more, seen + {fold(file.path)}, fold, newline)
    ensures ProperFiles([file] + more, seen, fold, newline) && [file] + more != []
  {
    hide SafePath, ValidHunks;
    assert ([file] + more)[1..] == more;
  }

  /** Every accepted diff has a normal form: printed without preambles and timestamps, its files are
      parsed back as the same files. */
  lemma {:induction false} AcceptedHasNormalForm(lines: seq<string>, fold: string -> string, newline: string)
    requires Files(lines, {}, fold, newline).Ok?
    ensures var files := Files(lines, {}, fold, newline).value;
            && (forall file | file in files :: file.plan.Diff?)
            && Files(PrintFiles(files), {}, fold, newline) == Ok(files)
  {
    hide *;
    AcceptedFilesAreProper(lines, {}, fold, newline);
    PrintedFilesAreParsed(Files(lines, {}, fold, newline).value, {}, fold, newline);
  }

  /** No two files of an accepted diff name the same path. */
  lemma {:induction false} FilesNameDistinctPaths(files: seq<FilePatch>, seen: set<string>, fold: string -> string,
                                                  newline: string)
    requires ProperFiles(files, seen, fold, newline)
    ensures forall i | 0 <= i < |files| :: fold(files[i].path) !in seen
    ensures forall i, j | 0 <= i < j < |files| :: fold(files[i].path) != fold(files[j].path)
  {
    hide ProperFile;
    if files != [] {
      var first := fold(files[0].path);
      FilesNameDistinctPaths(files[1..], seen + {first}, fold, newline);
      forall i, j | 0 <= i < j < |files| ensures fold(files[i].path) != fold(files[j].path) {
        assert files[j] == files[1..][j - 1];
        if i > 0 { assert files[i] == files[1..][i - 1]; }
      }
      forall i | 0 <= i < |files| ensures fold(files[i].path) !in seen {
        if i > 0 { assert files[i] == files[1..][i - 1]; }
      }
    }
  }
}
