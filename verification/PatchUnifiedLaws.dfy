/** Exactly which texts are unified diffs, and which files they patch. */
module PatchUnifiedLaws {
  import opened Results
  import opened Sequences
  import opened PatchText
  import opened PatchHunks
  import opened PatchOperations
  import opened PatchUnified
  import opened PatchPreambles

  // ----- safe paths

  /** The characters from `i` up to `j` stand between two slashes, or a slash and an end. */
  predicate IsSegment(path: string, i: nat, j: nat) {
    && i <= j <= |path|
    && (i == 0 || path[i - 1] == '/') && (j == |path| || path[j] == '/')
    && forall k | i <= k < j :: path[k] != '/'
  }

  ghost predicate SegmentIs(path: string, part: string, i: nat, j: nat) { IsSegment(path, i, j) && part == path[i..j] }

  ghost predicate LaterSegment(path: string, part: string) {
    exists i: nat, j: nat :: i > 0 && SegmentIs(path, part, i, j)
  }

  function FirstSlash(path: string): (n: nat)
    ensures n <= |path| && (n < |path| ==> path[n] == '/') && forall k | 0 <= k < n :: path[k] != '/'
  {
    if path == "" || path[0] == '/' then 0 else 1 + FirstSlash(path[1..])
  }

  lemma {:induction false} PartsUnfold(path: string)
    ensures Parts(path)[0] == path[..FirstSlash(path)]
    ensures Parts(path)[1..] == if FirstSlash(path) == |path| then [] else Parts(path[FirstSlash(path) + 1..])
  {
    if path != "" {
      var rest := path[1..];
      if path[0] == '/' {
        assert path[..0] == "" && ([""] + Parts(rest))[1..] == Parts(rest);
      } else {
        PartsUnfold(rest);
        var n := FirstSlash(rest);
        assert FirstSlash(path) == n + 1 && path[..n + 1] == [path[0]] + rest[..n];
        assert n < |rest| ==> rest[n + 1..] == path[n + 2..];
      }
    }
  }

  lemma {:induction false} SegmentMoves(path: string, n: nat, part: string, i: nat, j: nat)
    requires n < |path| && path[n] == '/'
    ensures SegmentIs(path[n + 1..], part, i, j) <==> SegmentIs(path, part, i + n + 1, j + n + 1)
  {
    var rest := path[n + 1..];
    assert forall k | 0 <= k < |rest| :: rest[k] == path[k + n + 1];
    assert forall k | n < k < |path| :: path[k] == rest[k - n - 1];
    if i <= j <= |rest| { assert rest[i..j] == path[i + n + 1..j + n + 1]; }
  }

  lemma {:induction false} LaterStart(path: string, n: nat, part: string, i: nat, j: nat)
    requires n == FirstSlash(path) && 0 < i && SegmentIs(path, part, i, j)
    ensures n < i <= j
  {
    assert path[i - 1] == '/';
  }

  lemma {:induction false} SegmentsBehind(path: string, n: nat, part: string)
    requires n == FirstSlash(path) < |path|
    ensures LaterSegment(path, part)
            <==> LaterSegment(path[n + 1..], part) || SegmentIs(path[n + 1..], part, 0, FirstSlash(path[n + 1..]))
  {
    hide FirstSlash, SegmentIs;
    var rest := path[n + 1..];
    if i: nat, j: nat :| i > 0 && SegmentIs(path, part, i, j) {
      LaterStart(path, n, part, i, j);
      SegmentMoves(path, n, part, i - n - 1, j - n - 1);
      if i == n + 1 { FirstSegmentEnds(rest, part, j - n - 1); }
    }
    if i: nat, j: nat :| SegmentIs(rest, part, i, j) && (i > 0 || j == FirstSlash(rest)) {
      SegmentMoves(path, n, part, i, j);
    }
  }

  lemma {:induction false} FirstSegmentEnds(path: string, part: string, j: nat)
    requires SegmentIs(path, part, 0, j)
    ensures j == FirstSlash(path)
  {
    hide FirstSlash;
    OneFirstSegment(path, j);
  }

  lemma {:induction false} OneFirstSegment(path: string, j: nat)
    ensures IsSegment(path, 0, j) <==> j == FirstSlash(path)
  {
    hide FirstSlash;
  }

  lemma {:induction false} LaterPartsAre(path: string, part: string)
    ensures part in Parts(path)[1..] <==> LaterSegment(path, part)
    decreases |path|
  {
    hide Parts, FirstSlash, LaterSegment;
    PartsUnfold(path);
    var n := FirstSlash(path);
    if n < |path| {
      var rest := path[n + 1..];
      LaterPartsAre(rest, part);
      PartsUnfold(rest);
      OneFirstSegment(rest, FirstSlash(rest));
      SegmentsBehind(path, n, part);
      assert Parts(rest) == [Parts(rest)[0]] + Parts(rest)[1..];
    } else {
      NoLaterSegment(path, part);
    }
  }

  lemma {:induction false} NoLaterSegment(path: string, part: string)
    requires '/' !in path
    ensures !LaterSegment(path, part)
  {
  }

  lemma {:induction false} PartsAre(path: string, part: string)
    ensures part in Parts(path) <==> exists i: nat, j: nat :: SegmentIs(path, part, i, j)
  {
    hide Parts, FirstSlash;
    PartsUnfold(path);
    LaterPartsAre(path, part);
    var n := FirstSlash(path);
    OneFirstSegment(path, n);
    assert Parts(path) == [Parts(path)[0]] + Parts(path)[1..];
    assert SegmentIs(path, path[..n], 0, n);
    forall j: nat | SegmentIs(path, part, 0, j) ensures j == n { OneFirstSegment(path, j); }
  }

  /** A path is safe exactly when it names something, begins with neither slash nor quote, has no backslash and
      no colon, and no segment of it is empty, a dot or two dots. */
  lemma {:induction false} SafePathsStayInside(path: string)
    ensures SafePath(path)
            <==> && path != "" && path[0] != '/' && path[0] != '"'
                 && (forall k | 0 <= k < |path| :: path[k] != '\\' && path[k] != ':')
                 && (forall i: nat, j: nat | IsSegment(path, i, j) :: i < j && path[i..j] != "." && path[i..j] != "..")
  {
    hide Parts, IsSegment;
    forall part ensures part in Parts(path) <==> exists i: nat, j: nat :: SegmentIs(path, part, i, j) {
      PartsAre(path, part);
    }
    forall i: nat, j: nat | IsSegment(path, i, j)
      ensures i <= j <= |path| && path[i..j] in Parts(path) && (i < j <==> path[i..j] != "")
    {
      SegmentInside(path, i, j);
      assert SegmentIs(path, path[i..j], i, j);
    }
  }

  lemma {:induction false} SegmentInside(path: string, i: nat, j: nat)
    requires IsSegment(path, i, j)
    ensures i <= j <= |path| && (i < j <==> path[i..j] != "")
  {
  }

  // ----- header lines

  /** Behind the mark stands the null path, the path behind the prefix, or the path alone; a time stamp may
      follow behind a tab. */
  ghost predicate Shows(line: string, mark: string, prefix: string, path: Option<string>, shown: string,
                        stamp: string) {
    && line == mark + shown + stamp && '\t' !in shown && (stamp == "" || stamp[0] == '\t')
    && match path
       case None => shown == "/dev/null"
       case Some(p) => SafePath(p) && (shown == prefix + p || (shown == p && !StartsWith(p, prefix)))
  }

  ghost predicate HeaderShows(line: string, mark: string, prefix: string, path: Option<string>) {
    exists shown, stamp :: Shows(line, mark, prefix, path, shown, stamp)
  }

  lemma {:induction false} BeforeSplits(text: string, sep: char) returns (rest: string)
    ensures text == Before(text, sep) + rest && (rest == "" || rest[0] == sep)
  {
    if text == "" || text[0] == sep {
      rest := text;
    } else {
      rest := BeforeSplits(text[1..], sep);
      assert text == [text[0]] + text[1..];
    }
  }

  lemma {:induction false} BeforeStops(text: string, rest: string, sep: char)
    requires sep !in text && (rest == "" || rest[0] == sep)
    ensures Before(text + rest, sep) == text
  {
    if text != "" {
      assert (text + rest)[1..] == text[1..] + rest;
      BeforeStops(text[1..], rest, sep);
      assert text == [text[0]] + text[1..];
    } else {
      assert text + rest == rest;
    }
  }

  lemma {:induction false} ShownPath(shown: string, prefix: string, path: Option<string>)
    requires prefix == "a/" || prefix == "b/"
    ensures (if shown == NULL_PATH then path == None
             else
               var p := if StartsWith(shown, prefix) then shown[|prefix|..] else shown;
               path == Some(p) && SafePath(p))
            <==> match path
                 case None => shown == "/dev/null"
                 case Some(p) => SafePath(p) && (shown == prefix + p || (shown == p && !StartsWith(p, prefix)))
  {
    if path.Some? {
      var p := path.value;
      assert (prefix + p)[..2] == prefix && (prefix + p)[2..] == p && (prefix + p)[0] == prefix[0];
      if StartsWith(shown, prefix) { assert shown == shown[..2] + shown[2..]; }
      assert SafePath(p) ==> p[0] != '/';
      assert NULL_PATH[0] == '/';
    }
  }

  lemma {:induction false} PathOfIs(header: string, prefix: string, path: Option<string>)
    ensures var shown := Before(if |header| >= 4 then header[4..] else "", '\t');
            PathOf(header, prefix) == Ok(path)
            <==> if shown == NULL_PATH then path == None
                 else
                   var p := if StartsWith(shown, prefix) then shown[|prefix|..] else shown;
                   path == Some(p) && SafePath(p)
  {
    hide SafePath, Before, StartsWith;
  }

  /** What a header line is read as is exactly what it shows. */
  lemma {:induction false} HeaderIsRead(line: string, mark: string, prefix: string, path: Option<string>)
    requires |mark| == 4 && StartsWith(line, mark) && (prefix == "a/" || prefix == "b/")
    ensures PathOf(line, prefix) == Ok(path) <==> HeaderShows(line, mark, prefix, path)
  {
    hide SafePath, PathOf, Before;
    var text := line[4..];
    assert line == mark + text;
    var shown := Before(text, '\t');
    var stamp := BeforeSplits(text, '\t');
    BeforeIs(text, '\t');
    PathOfIs(line, prefix, path);
    ShownPath(shown, prefix, path);
    if PathOf(line, prefix) == Ok(path) {
      assert line == mark + shown + stamp;
      assert Shows(line, mark, prefix, path, shown, stamp);
    }
    forall s, t | Shows(line, mark, prefix, path, s, t) ensures PathOf(line, prefix) == Ok(path) {
      assert (mark + s + t)[4..] == s + t;
      BeforeStops(s, t, '\t');
    }
  }

  lemma {:induction false} ShowsMark(line: string, mark: string, prefix: string, path: Option<string>)
    requires HeaderShows(line, mark, prefix, path)
    ensures StartsWith(line, mark)
  {
    hide SafePath;
    var shown, stamp :| Shows(line, mark, prefix, path, shown, stamp);
    assert (mark + shown + stamp)[..|mark|] == mark;
  }

  // ----- the headers of a file

  /** Git's lines, then the two header lines; what they show makes the action, and no git line disagrees. */
  ghost predicate IsHead(lines: seq<string>, git: seq<string>, first: string, second: string, path: string,
                         action: string, body: seq<string>)
  {
    && lines == git + [first, second] + body && AreGitLines(git) && ModesAgree(git, action)
    && ShowsAction(first, second, path, action)
  }

  ghost predicate ShowsAction(first: string, second: string, path: string, action: string) {
    (action == "add" || action == "delete" || action == "update")
    && HeaderShows(first, "--- ", "a/", if action == "add" then None else Some(path))
    && HeaderShows(second, "+++ ", "b/", if action == "delete" then None else Some(path))
  }

  lemma {:induction false} PreambleSplits(lines: seq<string>, mode: Mode) returns (git: seq<string>)
    requires Preamble(lines, mode).Ok?
    ensures var (rest, m) := Preamble(lines, mode).value;
            && lines == git + rest && AreGitLines(git) && ModeBehind(git, mode) == Some(m)
            && (rest == [] || !IsGitLine(rest[0]))
    decreases |lines|
  {
    hide StartsWith, IsGitLine, IsModeLine;
    git := [];
    if lines == [] {
      assert lines == git + lines;
    } else {
      GitStep(lines, mode);
      if IsGitLine(lines[0]) {
        var next := if !IsModeLine(lines[0]) then mode else if lines[0] == CREATES then Created else Deleted;
        var more := PreambleSplits(lines[1..], next);
        git := [lines[0]] + more;
        assert lines == [lines[0]] + lines[1..];
        assert git[1..] == more;
      } else {
        assert lines == git + lines;
      }
    }
  }

  lemma {:induction false} TargetIs(before: Option<string>, after: Option<string>, path: string, action: string)
    ensures Target(before, after) == Some((path, action))
            <==> && (action == "add" || action == "delete" || action == "update")
                 && before == (if action == "add" then None else Some(path))
                 && after == if action == "delete" then None else Some(path)
  {
    LiteralActions();
  }

  lemma {:induction false} HeadersUnfold(lines: seq<string>, rest: seq<string>, mode: Mode, path: string,
                                         action: string,
                                         body: seq<string>)
    requires Preamble(lines, Unstated) == Ok((rest, mode))
    ensures Headers(lines) == Ok((path, action, body))
            <==> && |rest| >= 2 && StartsWith(rest[0], "--- ") && StartsWith(rest[1], "+++ ") && body == rest[2..]
                 && Agrees(mode, action) && PathOf(rest[0], "a/").Ok? && PathOf(rest[1], "b/").Ok?
                 && Target(PathOf(rest[0], "a/").value, PathOf(rest[1], "b/").value) == Some((path, action))
  {
    hide PathOf, Target, Agrees, StartsWith, Preamble;
  }

  lemma {:induction false} TwoHeaders(first: string, second: string, path: string, action: string)
    requires StartsWith(first, "--- ") && StartsWith(second, "+++ ")
    ensures PathOf(first, "a/").Ok? && PathOf(second, "b/").Ok?
            && Target(PathOf(first, "a/").value, PathOf(second, "b/").value) == Some((path, action))
            <==> ShowsAction(first, second, path, action)
  {
    hide PathOf, HeaderShows, Target, StartsWith;
    var before, after := if action == "add" then None else Some(path), if action == "delete" then None else Some(path);
    HeaderIsRead(first, "--- ", "a/", before);
    HeaderIsRead(second, "+++ ", "b/", after);
    if PathOf(first, "a/").Ok? && PathOf(second, "b/").Ok? {
      TargetIs(PathOf(first, "a/").value, PathOf(second, "b/").value, path, action);
    }
  }

  /** Exactly which lines are the headers of a file, for which path and action, in front of which body. */
  lemma {:induction false} HeadersAreRead(lines: seq<string>, path: string, action: string, body: seq<string>)
    ensures Headers(lines) == Ok((path, action, body))
            <==> exists git, first, second :: IsHead(lines, git, first, second, path, action, body)
  {
    hide *;
    if Headers(lines) == Ok((path, action, body)) {
      HeadHasPreamble(lines);
      var (rest, mode) := Preamble(lines, Unstated).value;
      HeadersUnfold(lines, rest, mode, path, action, body);
      var git := PreambleSplits(lines, Unstated);
      ModeBehindAgrees(git, Unstated, action);
      TwoHeaders(rest[0], rest[1], path, action);
      assert rest == [rest[0], rest[1]] + body;
      assert git + rest == git + [rest[0], rest[1]] + body;
      HeadIs(lines, git, rest[0], rest[1], path, action, body);
    }
    forall git, first, second | IsHead(lines, git, first, second, path, action, body)
      ensures Headers(lines) == Ok((path, action, body))
    {
      HeadIs(lines, git, first, second, path, action, body);
      HeadIsRead(git, first, second, path, action, body);
    }
  }

  lemma {:induction false} HeadHasPreamble(lines: seq<string>)
    requires Headers(lines).Ok?
    ensures Preamble(lines, Unstated).Ok?
  {
    hide Preamble, PathOf, Target, Agrees, StartsWith;
  }

  lemma {:induction false} HeadIs(lines: seq<string>, git: seq<string>, first: string, second: string, path: string,
                                  action: string, body: seq<string>)
    ensures IsHead(lines, git, first, second, path, action, body)
            <==> && lines == git + [first, second] + body && AreGitLines(git) && ModesAgree(git, action)
                 && ShowsAction(first, second, path, action)
  {
    hide AreGitLines, ModesAgree, ShowsAction;
  }

  lemma {:induction false} ActionMarks(first: string, second: string, path: string, action: string)
    requires ShowsAction(first, second, path, action)
    ensures StartsWith(first, "--- ") && StartsWith(second, "+++ ") && !IsGitLine(first)
    ensures !StartsHunk(first) && first != NoNewlineMarker()
  {
    ShowsMark(first, "--- ", "a/", if action == "add" then None else Some(path));
    ShowsMark(second, "+++ ", "b/", if action == "delete" then None else Some(path));
    MarksAreNoPreamble(first);
    hide HeaderShows, StartsHunk, NoNewlineMarker;
  }

  lemma {:induction false} HeadIsRead(git: seq<string>, first: string, second: string, path: string, action: string,
                                      body: seq<string>)
    requires AreGitLines(git) && ModesAgree(git, action) && ShowsAction(first, second, path, action)
    ensures Headers(git + [first, second] + body) == Ok((path, action, body))
  {
    hide *;
    var rest := [first, second] + body;
    assert git + rest == git + [first, second] + body && rest[2..] == body;
    ActionMarks(first, second, path, action);
    ModeBehindAgrees(git, Unstated, action);
    GitLinesArePassed(git, rest, Unstated);
    TwoHeaders(first, second, path, action);
    HeadersUnfold(git + rest, rest, ModeBehind(git, Unstated).value, path, action, body);
  }

  // ----- whole diffs

  /** The lines of a file: its headers, its hunks, and the rest. */
  ghost predicate IsFileAt(lines: seq<string>, file: FilePatch, newline: string, git: seq<string>, first: string,
                           second: string, rest: seq<string>)
  {
    && file.plan.Diff? && ValidHunks(file.plan.hunks) && file.plan.newline == newline
    && (file.action == "update" ==> file.plan.hunks != [])
    && IsHead(lines, git, first, second, file.path, file.action, PrintHunks(file.plan.hunks) + rest)
  }

  /** One file after the other, no two of them under names that fold together. */
  ghost predicate IsDiffOf(lines: seq<string>, files: seq<FilePatch>, seen: set<string>, fold: string -> string,
                           newline: string)
    decreases |files|
  {
    if files == [] then lines == []
    else
      && fold(files[0].path) !in seen
      && exists git, first, second, rest ::
        IsFileAt(lines, files[0], newline, git, first, second, rest)
        && IsDiffOf(rest, files[1..], seen + {fold(files[0].path)}, fold, newline)
  }

  lemma {:induction false} DiffUnfolds(lines: seq<string>, files: seq<FilePatch>, seen: set<string>,
                                       fold: string -> string, newline: string)
    returns (git: seq<string>, first: string, second: string, rest: seq<string>)
    requires files != [] && IsDiffOf(lines, files, seen, fold, newline)
    ensures fold(files[0].path) !in seen && IsFileAt(lines, files[0], newline, git, first, second, rest)
    ensures IsDiffOf(rest, files[1..], seen + {fold(files[0].path)}, fold, newline)
  {
    hide IsFileAt;
    git, first, second, rest :| IsFileAt(lines, files[0], newline, git, first, second, rest)
                                && IsDiffOf(rest, files[1..], seen + {fold(files[0].path)}, fold, newline);
  }

  lemma {:induction false} DiffFolds(lines: seq<string>, file: FilePatch, more: seq<FilePatch>, seen: set<string>,
                                     fold: string -> string, newline: string, git: seq<string>, first: string,
                                     second: string, rest: seq<string>)
    requires fold(file.path) !in seen && IsFileAt(lines, file, newline, git, first, second, rest)
    requires IsDiffOf(rest, more, seen + {fold(file.path)}, fold, newline)
    ensures IsDiffOf(lines, [file] + more, seen, fold, newline)
  {
    hide IsFileAt;
    assert ([file] + more)[1..] == more;
  }

  /** The lines behind a file's hunks never look like more of them. */
  lemma {:induction false} DiffStarts(lines: seq<string>, files: seq<FilePatch>, seen: set<string>,
                                      fold: string -> string, newline: string)
    requires IsDiffOf(lines, files, seen, fold, newline) && lines != []
    ensures lines[0] != NoNewlineMarker() && !StartsHunk(lines[0])
  {
    hide *;
    if files == [] { NoDiff(lines, seen, fold, newline); }
    var git, first, second, rest := DiffUnfolds(lines, files, seen, fold, newline);
    FileAtIs(lines, files[0], newline, git, first, second, rest);
    HeadIs(lines, git, first, second, files[0].path, files[0].action, PrintHunks(files[0].plan.hunks) + rest);
    ActionMarks(first, second, files[0].path, files[0].action);
    if git == [] {
      assert lines[0] == first;
    } else {
      assert lines[0] == git[0];
      GitLinesAreNoHunks(git);
    }
  }

  lemma {:induction false} NoDiff(lines: seq<string>, seen: set<string>, fold: string -> string, newline: string)
    ensures IsDiffOf(lines, [], seen, fold, newline) <==> lines == []
  {
  }

  lemma {:induction false} GitLinesAreNoHunks(git: seq<string>)
    requires AreGitLines(git) && git != []
    ensures git[0] != NoNewlineMarker() && !StartsHunk(git[0])
  {
    var line := git[0];
    assert IsGitLine(line);
    if StartsWith(line, "diff --git ") { FirstIs(line, "diff --git "); }
    if StartsWith(line, "index ") { FirstIs(line, "index "); }
    assert CREATES[0] == 'n' && DELETES[0] == 'd' && NoNewlineMarker()[0] == '\\';
  }

  lemma {:induction false} FileAtIs(lines: seq<string>, file: FilePatch, newline: string, git: seq<string>,
                                    first: string,
                                    second: string, rest: seq<string>)
    ensures IsFileAt(lines, file, newline, git, first, second, rest)
            <==> && file.plan.Diff? && ValidHunks(file.plan.hunks) && file.plan.newline == newline
                 && (file.action == "update" ==> file.plan.hunks != [])
                 && IsHead(lines, git, first, second, file.path, file.action, PrintHunks(file.plan.hunks) + rest)
  {
    hide IsHead, ValidHunks, PrintHunks;
  }

  lemma {:induction false} DiffIsRead(lines: seq<string>, files: seq<FilePatch>, seen: set<string>,
                                      fold: string -> string, newline: string)
    requires IsDiffOf(lines, files, seen, fold, newline)
    ensures Files(lines, seen, fold, newline) == Ok(files)
    decreases |files|
  {
    hide *;
    if files == [] {
      NoDiff(lines, seen, fold, newline);
      NothingIsProper(seen, fold, newline);
    } else {
      var file, more := files[0], files[1..];
      var git, first, second, rest := DiffUnfolds(lines, files, seen, fold, newline);
      FileAtIs(lines, file, newline, git, first, second, rest);
      var body := PrintHunks(file.plan.hunks) + rest;
      HeadersAreRead(lines, file.path, file.action, body);
      HeadIs(lines, git, first, second, file.path, file.action, body);
      if rest != [] { DiffStarts(rest, more, seen + {fold(file.path)}, fold, newline); }
      ParsePrintedHunks(file.plan.hunks, rest);
      DiffIsRead(rest, more, seen + {fold(file.path)}, fold, newline);
      FilesStep(lines, seen, fold, newline);
      BehindOne(file, more);
      assert files == [file] + more;
      assert file == FilePatch(file.path, file.action, Diff(file.plan.hunks, newline));
    }
  }

  lemma {:induction false} ReadIsDiff(lines: seq<string>, seen: set<string>, fold: string -> string, newline: string)
    requires Files(lines, seen, fold, newline).Ok?
    ensures IsDiffOf(lines, Files(lines, seen, fold, newline).value, seen, fold, newline)
    decreases |lines|
  {
    hide *;
    if lines == [] {
      NothingIsProper(seen, fold, newline);
      NoDiff(lines, seen, fold, newline);
    } else {
      FilesStep(lines, seen, fold, newline);
      var (path, action, body) := Headers(lines).value;
      var (hunks, rest) := ParseHunks(body).value;
      HeadersAreRead(lines, path, action, body);
      var git, first, second :| IsHead(lines, git, first, second, path, action, body);
      PrintParsedHunks(body);
      HunksConsume(body);
      var file, behind := FilePatch(path, action, Diff(hunks, newline)),
                          Files(rest, seen + {fold(path)}, fold, newline);
      BehindOk(file, behind);
      ReadIsDiff(rest, seen + {fold(path)}, fold, newline);
      BehindOne(file, behind.value);
      FileAtIs(lines, file, newline, git, first, second, rest);
      DiffFolds(lines, file, behind.value, seen, fold, newline, git, first, second, rest);
    }
  }

  /** Exactly which texts are unified diffs, and which files they patch with which hunks. */
  lemma {:induction false} DiffsAreRead(diff: string, fold: string -> string, files: seq<FilePatch>)
    ensures UnifiedFiles(diff, fold) == Ok(files)
            <==> diff != "" && Lines(diff).Ok? && IsDiffOf(Lines(diff).value, files, {}, fold, Style(diff))
  {
    hide Lines, Files, IsDiffOf, Style;
    if Lines(diff).Ok? {
      var lines := Lines(diff).value;
      if IsDiffOf(lines, files, {}, fold, Style(diff)) { DiffIsRead(lines, files, {}, fold, Style(diff)); }
      if Files(lines, {}, fold, Style(diff)).Ok? { ReadIsDiff(lines, {}, fold, Style(diff)); }
    }
  }
}
