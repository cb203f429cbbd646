/** Exactly how a diff that does not apply is refused: by its first hunk that does not fit. */
module PatchRefusals {
  import opened Results
  import opened PatchText
  import opened PatchHeader
  import opened PatchHunks
  import opened PatchApply

  /** Where hunk `k` may begin in the old file, and what is written by then: behind the hunk before it. */
  function Cursor(hunks: seq<Hunk>, k: nat): nat
    requires k <= |hunks|
  {
    if k == 0 || Coordinates(hunks[k - 1].header).Err? then 0
    else
      var c := Coordinates(hunks[k - 1].header).value;
      c.start + c.oldCount
  }

  function Produced(hunks: seq<Hunk>, k: nat): nat
    requires k <= |hunks|
  {
    if k == 0 || Coordinates(hunks[k - 1].header).Err? then 0
    else
      var c := Coordinates(hunks[k - 1].header).value;
      c.newStart + c.newCount
  }

  /** The lines stand in the file from line `p` on. */
  predicate StandsAt(original: seq<string>, lines: seq<string>, p: nat) {
    p + |lines| <= |original| && forall j | 0 <= j < |lines| :: original[p + j] == lines[j]
  }

  /** The hunk lies behind the one before it and within the file, its new coordinates follow, its old block stands
      where it says, and both blocks have the announced sizes. */
  predicate FitsAt(original: seq<string>, hunks: seq<Hunk>, k: nat)
    requires k < |hunks|
  {
    && Coordinates(hunks[k].header).Ok?
    && var c := Coordinates(hunks[k].header).value;
       && Cursor(hunks, k) <= c.start && c.start + c.oldCount <= |original|
       && c.newStart == Produced(hunks, k) + (c.start - Cursor(hunks, k))
       && StandsAt(original, Block(Old, hunks[k].lines), c.start)
       && |Block(Old, hunks[k].lines)| == c.oldCount && |Block(New, hunks[k].lines)| == c.newCount
  }

  /** Stale: it overlaps the one before, lies outside the file, or its old block is not there. Invalid: an
      unreadable header, new coordinates that do not follow, or sizes that are not the announced ones. */
  predicate FailsAt(original: seq<string>, hunks: seq<Hunk>, k: nat, e: PatchError)
    requires k < |hunks|
  {
    match Coordinates(hunks[k].header)
    case Err(x) => e == x
    case Ok(c) =>
      if c.start < Cursor(hunks, k) || |original| < c.start + c.oldCount then e == StalePreimage
      else if c.newStart != Produced(hunks, k) + (c.start - Cursor(hunks, k)) then e == InvalidPatch
      else if !StandsAt(original, Block(Old, hunks[k].lines), c.start) then e == StalePreimage
      else
        (|Block(Old, hunks[k].lines)| != c.oldCount || |Block(New, hunks[k].lines)| != c.newCount) && e == InvalidPatch
  }

  ghost predicate AllFit(original: seq<string>, hunks: seq<Hunk>, from: nat, to: nat)
    requires from <= to <= |hunks|
  {
    forall i | from <= i < to :: FitsAt(original, hunks, i)
  }

  /** Some hunk fails, and all in front of it from `from` on fit. */
  ghost predicate FirstFails(original: seq<string>, hunks: seq<Hunk>, from: nat, e: PatchError)
    requires from <= |hunks|
  {
    exists k | from <= k < |hunks| :: FailsBehind(original, hunks, from, k, e)
  }

  ghost predicate FailsBehind(original: seq<string>, hunks: seq<Hunk>, from: nat, k: nat, e: PatchError)
    requires from <= k < |hunks|
  {
    AllFit(original, hunks, from, k) && FailsAt(original, hunks, k, e)
  }

  lemma {:induction false} BlockStandsAt(original: seq<string>, block: seq<string>, p: nat)
    requires p <= |original|
    ensures block <= original[p..] <==> StandsAt(original, block, p)
  {
    var rest := original[p..];
    if StandsAt(original, block, p) {
      assert forall j | 0 <= j < |block| :: rest[j] == original[p + j];
      assert rest[..|block|] == block;
    }
    if block <= rest { assert forall j | 0 <= j < |block| :: block[j] == rest[j] == original[p + j]; }
  }

  /** One hunk: it fits and the rest decides, or it fails. */
  lemma {:induction false} OneHunk(original: seq<string>, hunks: seq<Hunk>, k: nat)
    requires k < |hunks| && Cursor(hunks, k) <= |original|
    ensures var r := Refusal(original, Cursor(hunks, k), Produced(hunks, k), hunks[k..]);
            if FitsAt(original, hunks, k) then
              && Cursor(hunks, k + 1) <= |original|
              && r == Refusal(original, Cursor(hunks, k + 1), Produced(hunks, k + 1), hunks[k + 1..])
            else r.Some? && forall e :: r == Some(e) <==> FailsAt(original, hunks, k, e)
    ensures FitsAt(original, hunks, k) ==> forall e :: !FailsAt(original, hunks, k, e)
  {
    hide Coordinates, Block, Refusal, StandsAt;
    var header := hunks[k].header;
    if Coordinates(header).Ok? {
      var c := Coordinates(header).value;
      RefusalStep(original, Cursor(hunks, k), Produced(hunks, k), hunks, k, c);
      if c.start <= |original| { BlockStandsAt(original, Block(Old, hunks[k].lines), c.start); }
    } else {
      BadHeader(original, Cursor(hunks, k), Produced(hunks, k), hunks, k);
    }
  }

  lemma {:induction false} FirstFailsStep(original: seq<string>, hunks: seq<Hunk>, k: nat, e: PatchError)
    requires k < |hunks|
    ensures !FitsAt(original, hunks, k) ==> (FirstFails(original, hunks, k, e) <==> FailsAt(original, hunks, k, e))
    ensures FitsAt(original, hunks, k) && !FailsAt(original, hunks, k, e) ==>
              (FirstFails(original, hunks, k, e) <==> FirstFails(original, hunks, k + 1, e))
  {
    hide Coordinates, FailsAt, FitsAt;
    assert AllFit(original, hunks, k, k);
    if FitsAt(original, hunks, k) && !FailsAt(original, hunks, k, e) {
      forall m | k < m < |hunks|
        ensures AllFit(original, hunks, k, m) <==> AllFit(original, hunks, k + 1, m)
      {
      }
      hide AllFit;
      if FirstFails(original, hunks, k, e) {
        var m :| k <= m < |hunks| && FailsBehind(original, hunks, k, m, e);
        assert m != k && FailsBehind(original, hunks, k + 1, m, e);
      }
      if FirstFails(original, hunks, k + 1, e) {
        var m :| k + 1 <= m < |hunks| && FailsBehind(original, hunks, k + 1, m, e);
        assert FailsBehind(original, hunks, k, m, e);
      }
    } else if !FitsAt(original, hunks, k) {
      forall m | k < m < |hunks| ensures !AllFit(original, hunks, k, m) {}
      hide AllFit;
      if FailsAt(original, hunks, k, e) { assert FailsBehind(original, hunks, k, k, e); }
    }
  }

  lemma {:induction false} RefusedFrom(original: seq<string>, hunks: seq<Hunk>, k: nat, e: PatchError)
    requires k <= |hunks| && Cursor(hunks, k) <= |original|
    ensures Refusal(original, Cursor(hunks, k), Produced(hunks, k), hunks[k..]) == Some(e)
            <==> FirstFails(original, hunks, k, e)
    ensures Refusal(original, Cursor(hunks, k), Produced(hunks, k), hunks[k..]) == None
            <==> AllFit(original, hunks, k, |hunks|)
    decreases |hunks| - k
  {
    hide Coordinates, Refusal, FitsAt, FailsAt, Cursor, Produced, FirstFails;
    if k == |hunks| {
      NoHunks(original, Cursor(hunks, k), Produced(hunks, k), hunks);
      NothingFails(original, hunks, e);
    } else {
      OneHunk(original, hunks, k);
      FirstFailsStep(original, hunks, k, e);
      if FitsAt(original, hunks, k) {
        RefusedFrom(original, hunks, k + 1, e);
      }
    }
  }

  lemma {:induction false} NoHunks(original: seq<string>, cursor: nat, produced: nat, hunks: seq<Hunk>)
    ensures Refusal(original, cursor, produced, hunks[|hunks|..]) == None
  {
  }

  lemma {:induction false} NothingFails(original: seq<string>, hunks: seq<Hunk>, e: PatchError)
    ensures !FirstFails(original, hunks, |hunks|, e)
  {
  }

  /** A diff is refused as invalid for an unreadable text. Of a readable one the first hunk that does not fit
      decides; and when all fit, it is refused as invalid exactly when an unterminated line would come to stand
      in front of another. */
  lemma {:induction false} RefusedExactly(text: string, hunks: seq<Hunk>, newline: string, e: PatchError)
    ensures var r := Applied(text, Diff(hunks, newline));
            if '\0' in text || !Readable(text) then r == Err(InvalidPatch)
            else
              var original := KeepEnds(CollapseCrlf(text));
              && (r == Err(e) <==>
                  || FirstFails(original, hunks, 0, e)
                  || (e == InvalidPatch && AllFit(original, hunks, 0, |hunks|)
                      && Refusal(original, 0, 0, hunks) == None && !AllTerminated(Splice(original, 0, 0, hunks))))
              && (r.Ok? ==> AllFit(original, hunks, 0, |hunks|))
  {
    hide Readable, KeepEnds, CollapseCrlf, Refusal, Splice, FirstFails, AllFit, AllTerminated, Render;
    if '\0' !in text && Readable(text) {
      var original := KeepEnds(CollapseCrlf(text));
      assert hunks[0..] == hunks;
      RefusedFrom(original, hunks, 0, e);
    }
  }
}
