/** Git's lines in front of a file's headers: they are passed over, and a mode line is held against the action. */
module PatchPreambles {
  import opened Results
  import opened Sequences
  import opened PatchText
  import opened PatchHunks
  import opened PatchUnified

  const CREATES: string := "new file mode 100644"
  const DELETES: string := "deleted file mode 100644"

  predicate IsGitLine(line: string) {
    StartsWith(line, "diff --git ") || StartsWith(line, "index ") || line == CREATES || line == DELETES
  }

  predicate AreGitLines(lines: seq<string>) { forall i | 0 <= i < |lines| :: IsGitLine(lines[i]) }

  predicate IsModeLine(line: string) { line == CREATES || line == DELETES }

  /** At most one of the lines states a mode, and the one that does states the mode of the action. */
  predicate ModesAgree(lines: seq<string>, action: string) {
    && (forall i, j | 0 <= i < |lines| && 0 <= j < |lines| && IsModeLine(lines[i]) && IsModeLine(lines[j]) :: i == j)
    && (forall i | 0 <= i < |lines| && lines[i] == CREATES :: action == "add")
    && (forall i | 0 <= i < |lines| && lines[i] == DELETES :: action == "delete")
  }

  /** The mode the lines leave behind `mode`; None for a second one. */
  function ModeBehind(lines: seq<string>, mode: Mode): Option<Mode> {
    if lines == [] then Some(mode)
    else if IsModeLine(lines[0]) then
      if mode.Unstated? then ModeBehind(lines[1..], if lines[0] == CREATES then Created else Deleted) else None
    else ModeBehind(lines[1..], mode)
  }

  lemma {:induction false} GitLinesArePassed(git: seq<string>, rest: seq<string>, mode: Mode)
    requires AreGitLines(git) && rest != [] && !IsGitLine(rest[0])
    ensures Preamble(git + rest, mode)
         == match ModeBehind(git, mode) case None => Err(InvalidPatch) case Some(m) => Ok((rest, m))
    decreases |git|
  {
    hide StartsWith, IsGitLine, IsModeLine;
    if git == [] {
      assert git + rest == rest;
      GitStep(rest, mode);
    } else {
      assert (git + rest)[0] == git[0] && (git + rest)[1..] == git[1..] + rest;
      assert forall i | 0 <= i < |git[1..]| :: git[1..][i] == git[i + 1];
      GitStep(git + rest, mode);
      if !IsModeLine(git[0]) {
        GitLinesArePassed(git[1..], rest, mode);
      } else if mode.Unstated? {
        GitLinesArePassed(git[1..], rest, if git[0] == CREATES then Created else Deleted);
      }
    }
  }

  lemma {:induction false} GitStep(lines: seq<string>, mode: Mode)
    requires lines != []
    ensures Preamble(lines, mode)
         == if !IsGitLine(lines[0]) then Ok((lines, mode))
            else if !IsModeLine(lines[0]) then Preamble(lines[1..], mode)
            else if mode.Unstated? then Preamble(lines[1..], if lines[0] == CREATES then Created else Deleted)
            else Err(InvalidPatch)
  {
    assert "new file mode 100644"[0] == 'n' && "deleted file mode 100644"[1] == 'e' && "diff --git "[1] == 'i'
           && "index "[0] == 'i' && "deleted file mode 100644"[0] == 'd' && "diff --git "[0] == 'd';
  }

  predicate NoModeLine(lines: seq<string>) { forall i | 0 <= i < |lines| :: !IsModeLine(lines[i]) }

  lemma {:induction false} ModesUnfold(git: seq<string>, action: string)
    requires git != []
    ensures NoModeLine(git) <==> !IsModeLine(git[0]) && NoModeLine(git[1..])
    ensures ModesAgree(git, action)
            <==> if IsModeLine(git[0]) then
              NoModeLine(git[1..]) && action == (if git[0] == CREATES then "add" else "delete")
            else ModesAgree(git[1..], action)
  {
    hide *;
    var rest := git[1..];
    assert forall i | 0 <= i < |rest| :: rest[i] == git[i + 1];
    assert forall i | 0 < i < |git| :: git[i] == rest[i - 1];
    NoModeLineIs(git);
    NoModeLineIs(rest);
    ModesAgreeIs(git, action);
    ModesAgreeIs(rest, action);
    forall line ensures IsModeLine(line) <==> line == CREATES || line == DELETES { ModeLineIs(line); }
    ModeLineIs(git[0]);
    assert CREATES != DELETES by { ModeLineIs(CREATES); }
  }

  lemma {:induction false} ModeLineIs(line: string)
    ensures IsModeLine(line) <==> line == CREATES || line == DELETES
    ensures CREATES != DELETES
  {
    assert CREATES[0] == 'n' && DELETES[0] == 'd';
  }

  lemma {:induction false} NoModeLineIs(lines: seq<string>)
    ensures NoModeLine(lines) <==> forall i | 0 <= i < |lines| :: !IsModeLine(lines[i])
  {
    hide IsModeLine;
  }

  lemma {:induction false} ModesAgreeIs(lines: seq<string>, action: string)
    ensures ModesAgree(lines, action)
            <==> && (forall i, j | 0 <= i < |lines| && 0 <= j < |lines|
                                   && IsModeLine(lines[i]) && IsModeLine(lines[j]) :: i == j)
                 && (forall i | 0 <= i < |lines| && lines[i] == CREATES :: action == "add")
                 && (forall i | 0 <= i < |lines| && lines[i] == DELETES :: action == "delete")
  {
    hide IsModeLine, CREATES, DELETES;
  }

  lemma {:induction false} ModeBehindAgrees(git: seq<string>, mode: Mode, action: string)
    ensures var m := ModeBehind(git, mode);
            m.Some? && Agrees(m.value, action)
            <==> if mode.Unstated? then ModesAgree(git, action) else NoModeLine(git) && Agrees(mode, action)
    decreases |git|
  {
    hide IsModeLine, ModesAgree, NoModeLine, CREATES;
    if git == [] {
      NothingStated(action);
    } else {
      ModesUnfold(git, action);
      if !IsModeLine(git[0]) {
        ModeBehindAgrees(git[1..], mode, action);
      } else if mode.Unstated? {
        ModeBehindAgrees(git[1..], if git[0] == CREATES then Created else Deleted, action);
      }
    }
  }

  lemma {:induction false} NothingStated(action: string)
    ensures ModesAgree([], action) && NoModeLine([])
  {
  }

  lemma {:induction false} HeadersBehindGitLines(git: seq<string>, lines: seq<string>)
    requires AreGitLines(git) && lines != [] && !IsGitLine(lines[0])
    ensures Headers(git + lines)
         == if Headers(lines).Ok? && !ModesAgree(git, Headers(lines).value.1) then Err(InvalidPatch) else Headers(lines)
  {
    hide StartsWith, IsGitLine, ModesAgree, PathOf, Target, Preamble, Agrees;
    GitLinesArePassed(git, lines, Unstated);
    assert AreGitLines([]) && [] + lines == lines;
    GitLinesArePassed([], lines, Unstated);
    HeadersRefuse(lines);
    AgreesUnstated();
    forall action ensures var m := ModeBehind(git, Unstated);
                          m.Some? && Agrees(m.value, action) <==> ModesAgree(git, action)
    {
      ModeBehindAgrees(git, Unstated, action);
    }
  }

  lemma {:induction false} AgreesUnstated()
    ensures forall action: string :: Agrees(Unstated, action)
  {
  }

  lemma {:induction false} HeadersRefuse(lines: seq<string>)
    ensures Headers(lines).Err? ==> Headers(lines) == Err(InvalidPatch)
  {
    hide StartsWith, SafePath, Before, Target, Agrees, Preamble;
    PreambleRefuses(lines, Unstated);
  }

  lemma {:induction false} PreambleRefuses(lines: seq<string>, mode: Mode)
    ensures Preamble(lines, mode).Err? ==> Preamble(lines, mode) == Err(InvalidPatch)
    decreases |lines|
  {
    hide StartsWith, IsGitLine, IsModeLine;
    if lines != [] {
      GitStep(lines, mode);
      if !IsModeLine(lines[0]) {
        PreambleRefuses(lines[1..], mode);
      } else if mode.Unstated? {
        PreambleRefuses(lines[1..], if lines[0] == CREATES then Created else Deleted);
      }
    }
  }

  /** Git's lines in front of a file change nothing about how it is read, in whatever order they stand, except
      that the file is refused when two of them state a mode, or one states the mode of another action. */
  lemma {:induction false} GitLinesOnlyCheckTheMode(git: seq<string>, lines: seq<string>, seen: set<string>,
                                                    fold: string -> string, newline: string)
    requires AreGitLines(git) && lines != [] && !IsGitLine(lines[0])
    ensures Files(git + lines, seen, fold, newline)
         == if Headers(lines).Ok? && !ModesAgree(git, Headers(lines).value.1) then Err(InvalidPatch)
            else Files(lines, seen, fold, newline)
  {
    hide Headers, ParseHunks, ModesAgree, IsGitLine, Files;
    HeadersBehindGitLines(git, lines);
    FilesStep(lines, seen, fold, newline);
    FilesStep(git + lines, seen, fold, newline);
  }
}
