/** Applying a plan to a text: the line-by-line loop of the engine against two references,
    a splice of whole blocks and a symmetric alignment of the two files. */
module PatchApply {
  import opened Results
  import opened PatchText
  import opened PatchHeader
  import opened PatchHunks
  import opened Sequences

  // ----- the blocks of a hunk

  datatype Side = Old | New

  predicate On(side: Side, kind: char) {
    if side.Old? then IsOld(kind) else IsNew(kind)
  }

  function Terminated(line: BodyLine): string {
    line.text + if line.noNewline then "" else "\n"
  }

  function Contribution(side: Side, line: BodyLine): seq<string> {
    if On(side, line.kind) then [Terminated(line)] else []
  }

  /** The lines a hunk body expects to find (old side) or leaves behind (new side). */
  function Block(side: Side, body: seq<BodyLine>): seq<string> {
    if body == [] then [] else Contribution(side, body[0]) + Block(side, body[1..])
  }

  lemma {:induction false} BlockUnfold(side: Side, body: seq<BodyLine>)
    requires body != []
    ensures Block(side, body) == Contribution(side, body[0]) + Block(side, body[1..])
  {
    hide Contribution;
  }

  lemma {:induction false} BlockConcat(side: Side, a: seq<BodyLine>, b: seq<BodyLine>)
    ensures Block(side, a + b) == Block(side, a) + Block(side, b)
  {
    hide Contribution;
    if a == [] {
      assert a + b == b;
    } else {
      BlockConcat(side, a[1..], b);
      BlockUnfold(side, a);
      BlockUnfold(side, a + b);
      hide Block;
      assert (a + b)[1..] == a[1..] + b;
      Reassociate(Contribution(side, a[0]), Block(side, a[1..]), Block(side, b));
    }
  }

  lemma {:induction false} BlockSizes(body: seq<BodyLine>)
    ensures |Block(Old, body)| == OldCount(body) && |Block(New, body)| == NewCount(body)
  {
    hide Terminated;
    if body != [] { BlockSizes(body[1..]); }
  }

  lemma {:induction false} BlockStep(side: Side, body: seq<BodyLine>, index: nat)
    requires index < |body|
    ensures Block(side, body[..index + 1]) == Block(side, body[..index]) + Contribution(side, body[index])
    ensures Block(side, body[..index + 1]) <= Block(side, body)
  {
    hide Contribution;
    assert body[..index + 1] == body[..index] + [body[index]];
    BlockConcat(side, body[..index], [body[index]]);
    assert Block(side, [body[index]]) == Contribution(side, body[index]) + Block(side, [body[index]][1..]);
    assert body == body[..index + 1] + body[index + 1..];
    BlockConcat(side, body[..index + 1], body[index + 1..]);
  }

  // ----- the splice

  /** The first reason to refuse the hunks against `original[cursor..]` with `produced` lines
      already written, if there is one. */
  function Refusal(original: seq<string>, cursor: nat, produced: nat, hunks: seq<Hunk>): Option<PatchError>
    decreases |hunks|
  {
    if hunks == [] then None
    else
      match Coordinates(hunks[0].header)
      case Err(e) => Some(e)
      case Ok(c) =>
        if c.start < cursor || c.start > |original| || c.start + c.oldCount > |original| then Some(StalePreimage)
        else if c.newStart != produced + (c.start - cursor) then Some(InvalidPatch)
        else if !(Block(Old, hunks[0].lines) <= original[c.start..]) then Some(StalePreimage)
        else if |Block(Old, hunks[0].lines)| != c.oldCount || |Block(New, hunks[0].lines)| != c.newCount
        then Some(InvalidPatch)
        else Refusal(original, c.start + c.oldCount, c.newStart + c.newCount, hunks[1..])
  }

  /** The original from `cursor` on, with every old block replaced by its new block. */
  function Splice(original: seq<string>, cursor: nat, produced: nat, hunks: seq<Hunk>): seq<string>
    requires cursor <= |original| && Refusal(original, cursor, produced, hunks) == None
    decreases |hunks|
  {
    if hunks == [] then original[cursor..]
    else
      var c := Coordinates(hunks[0].header).value;
      original[cursor..c.start] + Block(New, hunks[0].lines)
        + Splice(original, c.start + c.oldCount, c.newStart + c.newCount, hunks[1..])
  }

  /** No line but the last is unterminated. */
  predicate AllTerminated(lines: seq<string>) {
    forall i | 0 <= i < |lines| - 1 :: EndsWithNewline(lines[i])
  }

  function OutputNewline(text: string, newline: string): string {
    if HasCrlf(text) then CRLF else if '\n' in text then LF else newline
  }

  function ApplyHunks(text: string, hunks: seq<Hunk>, newline: string): Result<string, PatchError> {
    if !Readable(text) then Err(InvalidPatch)
    else
      var original := KeepEnds(CollapseCrlf(text));
      match Refusal(original, 0, 0, hunks)
      case Some(e) => Err(e)
      case None =>
        var output := Splice(original, 0, 0, hunks);
        if AllTerminated(output) then Ok(Render(output, OutputNewline(text, newline))) else Err(InvalidPatch)
  }

  // ----- replacement of one exact fragment

  /** text.count(fragment): occurrences that do not overlap */
  function Occurrences(text: string, fragment: string): nat
    requires fragment != ""
  {
    if text == "" then 0
    else if StartsWith(text, fragment) then 1 + Occurrences(text[|fragment|..], fragment)
    else Occurrences(text[1..], fragment)
  }

  /** text.replace(fragment, substitute, 1) */
  function ReplaceFirst(text: string, fragment: string, substitute: string): string
    requires fragment != ""
  {
    if text == "" then ""
    else if StartsWith(text, fragment) then substitute + text[|fragment|..]
    else [text[0]] + ReplaceFirst(text[1..], fragment, substitute)
  }

  function Replace(text: string, oldText: string, newText: string): Result<string, PatchError> {
    if '\0' in newText then Err(InvalidPatch)
    else if oldText == "" || Occurrences(text, oldText) != 1 then Err(StalePreimage)
    else if !Readable(text) then Err(InvalidPatch)
    else
      var result := ReplaceFirst(text, oldText, newText);
      if Readable(result) then Ok(result) else Err(InvalidPatch)
  }

  /** What applying a plan to a text gives. */
  function Applied(text: string, plan: Plan): Result<string, PatchError> {
    if '\0' in text then Err(InvalidPatch)
    else
      match plan
      case Diff(hunks, newline) => ApplyHunks(text, hunks, newline)
      case Replacement(oldText, newText) => Replace(text, oldText, newText)
  }

  // ----- the engine's loops

  /** The loop over one hunk: compares and consumes old lines, appends new ones. */
  method ApplyBody(original: seq<string>, start: nat, output: seq<string>, body: seq<BodyLine>)
    returns (r: Result<(nat, seq<string>, nat, nat), PatchError>)
    requires start <= |original|
    ensures r.Ok? <==> Block(Old, body) <= original[start..]
    ensures r.Ok? ==>
              r.value == (start + |Block(Old, body)|, output + Block(New, body), |Block(Old, body)|, |Block(New, body)|)
    ensures r.Err? ==> r.error == StalePreimage
  {
    var cursor, out, oldUsed, newUsed := start, output, 0, 0;
    hide Terminated, Block;
    NoBlocks();
    for index := 0 to |body|
      invariant oldUsed == |Block(Old, body[..index])| && newUsed == |Block(New, body[..index])|
      invariant cursor == start + oldUsed <= |original|
      invariant original[start..cursor] == Block(Old, body[..index])
      invariant out == output + Block(New, body[..index])
    {
      BlockStep(Old, body, index);
      BlockStep(New, body, index);
      var line := Terminated(body[index]);
      if IsOld(body[index].kind) {
        if cursor >= |original| || original[cursor] != line {
          assert Block(Old, body)[oldUsed] == Block(Old, body[..index + 1])[oldUsed] == line;
          return Err(StalePreimage);
        }
        cursor := cursor + 1;
        oldUsed := oldUsed + 1;
      }
      if IsNew(body[index].kind) {
        out := out + [line];
        newUsed := newUsed + 1;
      }
    }
    assert body[..|body|] == body;
    assert original[start..][..oldUsed] == original[start..cursor];
    return Ok((cursor, out, oldUsed, newUsed));
  }

  lemma {:induction false} NoBlocks()
    ensures forall side, body: seq<BodyLine> :: Block(side, body[..0]) == []
  {
  }

  method ApplyText(text: string, plan: Plan) returns (r: Result<string, PatchError>)
    ensures r == Applied(text, plan)
  {
    if '\0' in text { return Err(InvalidPatch); }
    if plan.Replacement? {
      return Replace(text, plan.oldText, plan.newText);
    }
    if !Readable(text) { return Err(InvalidPatch); }
    var newline := if HasCrlf(text) then CRLF else if '\n' in text then LF else plan.newline;
    var original := KeepEnds(CollapseCrlf(text));
    var spliced := SpliceHunks(original, plan.hunks);
    if spliced.Err? { return Err(spliced.error); }
    var output := spliced.value;
    if exists i | 0 <= i < |output| - 1 :: !EndsWithNewline(output[i]) {
      return Err(InvalidPatch);
    }
    return Ok(Render(output, newline));
  }

  /** The loop over the hunks. */
  method SpliceHunks(original: seq<string>, hunks: seq<Hunk>) returns (r: Result<seq<string>, PatchError>)
    ensures match Refusal(original, 0, 0, hunks)
            case Some(e) => r == Err(e)
            case None => r == Ok(Splice(original, 0, 0, hunks))
  {
    hide Coordinates, Block, Refusal, Splice;
    var output: seq<string> := [];
    var cursor: nat := 0;
    assert hunks[0..] == hunks;
    for k := 0 to |hunks|
      invariant cursor <= |original|
      invariant Refusal(original, cursor, |output|, hunks[k..]) == Refusal(original, 0, 0, hunks)
      invariant Refusal(original, 0, 0, hunks) == None ==>
                  Splice(original, 0, 0, hunks) == output + Splice(original, cursor, |output|, hunks[k..])
    {
      var hunk := hunks[k];
      var coords := Coordinates(hunk.header);
      if coords.Err? {
        BadHeader(original, cursor, |output|, hunks, k);
        return Err(coords.error);
      }
      var c := coords.value;
      HunkStep(original, cursor, |output|, hunks, k, c);
      if c.start < cursor || c.start > |original| || c.start + c.oldCount > |original| {
        return Err(StalePreimage);
      }
      output := output + original[cursor..c.start];
      if c.newStart != |output| {
        return Err(InvalidPatch);
      }
      var body := ApplyBody(original, c.start, output, hunk.lines);
      if body.Err? { return Err(body.error); }
      if body.value.2 != c.oldCount || body.value.3 != c.newCount {
        return Err(InvalidPatch);
      }
      cursor, output := body.value.0, body.value.1;
    }
    NoHunkLeft(original, cursor, |output|, hunks);
    return Ok(output + original[cursor..]);
  }

  /** The splice of the hunks from `k` on, one hunk at a time. */
  lemma {:induction false} RefusalStep(original: seq<string>, cursor: nat, produced: nat, hunks: seq<Hunk>, k: nat,
                                       c: Coords)
    requires k < |hunks| && cursor <= |original| && Coordinates(hunks[k].header) == Ok(c)
    ensures Refusal(original, cursor, produced, hunks[k..]) ==
            if c.start < cursor || c.start > |original| || c.start + c.oldCount > |original| then Some(StalePreimage)
            else if c.newStart != produced + (c.start - cursor) then Some(InvalidPatch)
            else if !(Block(Old, hunks[k].lines) <= original[c.start..]) then Some(StalePreimage)
            else if |Block(Old, hunks[k].lines)| != c.oldCount || |Block(New, hunks[k].lines)| != c.newCount
            then Some(InvalidPatch)
            else Refusal(original, c.start + c.oldCount, c.newStart + c.newCount, hunks[k + 1..])
  {
    hide Coordinates, Block;
    assert hunks[k..][0] == hunks[k] && hunks[k..][1..] == hunks[k + 1..];
  }

  lemma {:induction false} SpliceStep(original: seq<string>, cursor: nat, produced: nat, hunks: seq<Hunk>, k: nat,
                                      c: Coords)
    requires k < |hunks| && cursor <= |original| && Coordinates(hunks[k].header) == Ok(c)
    requires Refusal(original, cursor, produced, hunks[k..]) == None
    ensures cursor <= c.start && c.start + c.oldCount <= |original|
    ensures Refusal(original, c.start + c.oldCount, c.newStart + c.newCount, hunks[k + 1..]) == None
    ensures Splice(original, cursor, produced, hunks[k..])
         == original[cursor..c.start] + Block(New, hunks[k].lines)
            + Splice(original, c.start + c.oldCount, c.newStart + c.newCount, hunks[k + 1..])
  {
    hide *;
    RefusalStep(original, cursor, produced, hunks, k, c);
    assert hunks[k..][0] == hunks[k] && hunks[k..][1..] == hunks[k + 1..];
    SpliceUnfolds(original, cursor, produced, hunks[k..], c);
  }

  lemma {:induction false} SpliceUnfolds(original: seq<string>, cursor: nat, produced: nat, hunks: seq<Hunk>,
                                         c: Coords)
    requires hunks != [] && cursor <= |original| && Coordinates(hunks[0].header) == Ok(c)
    requires Refusal(original, cursor, produced, hunks) == None
    requires cursor <= c.start && c.start + c.oldCount <= |original|
    requires Refusal(original, c.start + c.oldCount, c.newStart + c.newCount, hunks[1..]) == None
    ensures Splice(original, cursor, produced, hunks)
         == original[cursor..c.start] + Block(New, hunks[0].lines)
            + Splice(original, c.start + c.oldCount, c.newStart + c.newCount, hunks[1..])
  {
    hide Coordinates, Block, Refusal;
  }

  lemma {:induction false} HunkStep(original: seq<string>, cursor: nat, produced: nat, hunks: seq<Hunk>, k: nat,
                                    c: Coords)
    requires k < |hunks| && cursor <= |original| && Coordinates(hunks[k].header) == Ok(c)
    ensures Refusal(original, cursor, produced, hunks[k..]) ==
            if c.start < cursor || c.start > |original| || c.start + c.oldCount > |original| then Some(StalePreimage)
            else if c.newStart != produced + (c.start - cursor) then Some(InvalidPatch)
            else if !(Block(Old, hunks[k].lines) <= original[c.start..]) then Some(StalePreimage)
            else if |Block(Old, hunks[k].lines)| != c.oldCount || |Block(New, hunks[k].lines)| != c.newCount
            then Some(InvalidPatch)
            else Refusal(original, c.start + c.oldCount, c.newStart + c.newCount, hunks[k + 1..])
    ensures Refusal(original, cursor, produced, hunks[k..]) == None ==>
              Splice(original, cursor, produced, hunks[k..])
              == original[cursor..c.start] + Block(New, hunks[k].lines)
                 + Splice(original, c.start + c.oldCount, c.newStart + c.newCount, hunks[k + 1..])
  {
    RefusalStep(original, cursor, produced, hunks, k, c);
    if Refusal(original, cursor, produced, hunks[k..]) == None {
      SpliceStep(original, cursor, produced, hunks, k, c);
    }
    hide *;
  }

  lemma {:induction false} NoHunkLeft(original: seq<string>, cursor: nat, produced: nat, hunks: seq<Hunk>)
    requires cursor <= |original|
    ensures Refusal(original, cursor, produced, hunks[|hunks|..]) == None
    ensures Splice(original, cursor, produced, hunks[|hunks|..]) == original[cursor..]
  {
  }

  lemma {:induction false} BadHeader(original: seq<string>, cursor: nat, produced: nat, hunks: seq<Hunk>, k: nat)
    requires k < |hunks| && Coordinates(hunks[k].header).Err?
    ensures Refusal(original, cursor, produced, hunks[k..]) == Some(Coordinates(hunks[k].header).error)
  {
    hide Coordinates;
  }
}
