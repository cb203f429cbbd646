/** Resolving bare `@@` headers from a unique exact preimage. */
module PatchResolve {
  import opened Results
  import opened PatchText
  import opened PatchHeader
  import opened PatchApply
  import opened Sequences

  /** A hunk header with the lines up to the next one. */
  datatype Section = Section(header: string, body: seq<string>)

  /** How many lines precede the next hunk header. */
  function BodyRun(ls: seq<string>): (k: nat)
    ensures k <= |ls|
    ensures forall i | 0 <= i < k :: !StartsHunk(ls[i])
    ensures k < |ls| ==> StartsHunk(ls[k])
  {
    if ls == [] || StartsHunk(ls[0]) then 0 else 1 + BodyRun(ls[1..])
  }

  function Sections(ls: seq<string>): seq<Section>
    decreases |ls|
  {
    if ls == [] then []
    else
      var k := BodyRun(ls[1..]);
      [Section(ls[0], ls[1..][..k])] + Sections(ls[1..][k..])
  }

  function Flat(sections: seq<Section>): seq<string> {
    if sections == [] then [] else [sections[0].header] + sections[0].body + Flat(sections[1..])
  }

  /** The texts of the body lines on one side. */
  function Texts(side: Side, body: seq<string>): seq<string> {
    if body == [] then []
    else (if body[0] != "" && On(side, body[0][0]) then [body[0][1..]] else []) + Texts(side, body[1..])
  }

  /** Every position from `from` on where the preimage occurs. */
  function Matches(original: seq<string>, preimage: seq<string>, from: nat): (ps: seq<nat>)
    ensures forall p :: p in ps <==>
              from <= p && p + |preimage| <= |original| && original[p..p + |preimage|] == preimage
    decreases |original| - from
  {
    if from + |preimage| > |original| then []
    else if from == |original| then [from]
    else (if original[from..from + |preimage|] == preimage then [from] else []) + Matches(original, preimage, from + 1)
  }

  /** `@@ -a,n +b,m @@` with a possibly negative b, which no reader accepts. */
  function ResolvedHeader(a: nat, n: nat, b: int, m: nat): string {
    if b >= 0 then WriteHeader(Fields(a, n, b, m))
    else "@@ -" + Decimal(a) + "," + Decimal(n) + " +-" + Decimal(-b) + "," + Decimal(m) + " @@"
  }

  datatype Located = Located(header: string, start: nat, oldCount: nat, newCount: nat)

  /** Where one hunk goes: a numeric header is kept, a bare one is located by its preimage. */
  function Locate(section: Section, original: seq<string>, cursor: nat, delta: int): Result<Located, PatchError> {
    var header := section.header;
    if ReadHeader(header).Some? then
      match Coordinates(header)
      case Err(e) => Err(e)
      case Ok(c) => Ok(Located(header, c.start, c.oldCount, c.newCount))
    else if header != "@@" && !StartsWith(header, "@@ ") then Err(InvalidPatch)
    else
      var preimage := Texts(Old, section.body);
      if preimage == [] then Err(InvalidPatch)
      else
        var matches := Matches(original, preimage, cursor);
        if |matches| != 1 then Err(StalePreimage)
        else
          var start, n, m := matches[0], |preimage|, |Texts(New, section.body)|;
          var b := start + delta + (if m > 0 then 1 else 0);
          Ok(Located(ResolvedHeader(start + 1, n, b, m), start, n, m))
  }

  function ResolveSections(sections: seq<Section>, original: seq<string>, cursor: nat, delta: int)
    : Result<seq<Section>, PatchError>
  {
    if sections == [] then Ok([])
    else
      match Locate(sections[0], original, cursor, delta)
      case Err(e) => Err(e)
      case Ok(l) =>
        AfterSection(Section(l.header, sections[0].body),
                     ResolveSections(sections[1..], original, l.start + l.oldCount, delta + l.newCount - l.oldCount))
  }

  function AfterSection(first: Section, r: Result<seq<Section>, PatchError>): Result<seq<Section>, PatchError> {
    if r.Err? then r else Ok([first] + r.value)
  }

  function Resolve(diff: string, fileText: string): Result<string, PatchError> {
    match Lines(diff)
    case Err(e) => Err(e)
    case Ok(ls) =>
      if ls == [] || !StartsHunk(ls[0]) then Err(InvalidPatch)
      else
        match Lines(fileText)
        case Err(e) => Err(e)
        case Ok(original) =>
          match ResolveSections(Sections(ls), original, 0, 0)
          case Err(e) => Err(e)
          case Ok(resolved) => Ok(Join(Flat(resolved)) + "\n")
  }

  lemma {:induction false} NextSection(ls: seq<string>, i: nat, j: nat)
    requires i < j <= |ls|
    requires forall x | i + 1 <= x < j :: !StartsHunk(ls[x])
    requires j < |ls| ==> StartsHunk(ls[j])
    ensures Sections(ls[i..]) == [Section(ls[i], ls[i + 1..j])] + Sections(ls[j..])
    ensures (Sections(ls[i..]))[1..] == Sections(ls[j..])
  {
    var tail := ls[i..][1..];
    assert tail == ls[i + 1..];
    var k := BodyRun(tail);
    assert forall x | 0 <= x < |tail| :: tail[x] == ls[i + 1 + x];
    assert k == j - (i + 1);
    assert tail[..k] == ls[i + 1..j] && tail[k..] == ls[j..];
  }

  /** What the lines written so far and the sections still to come amount to. */
  function Continue(done: seq<string>, r: Result<seq<Section>, PatchError>): Result<seq<string>, PatchError> {
    match r
    case Err(e) => Err(e)
    case Ok(sections) => Ok(done + Flat(sections))
  }

  lemma {:induction false} ContinueSection(done: seq<string>, first: Section, r: Result<seq<Section>, PatchError>)
    ensures Continue(done, AfterSection(first, r)) == Continue(done + [first.header] + first.body, r)
  {
    if r.Ok? {
      assert ([first] + r.value)[1..] == r.value;
      assert done + ([first.header] + first.body + Flat(r.value)) == done + [first.header] + first.body + Flat(r.value);
    }
  }

  method NormalizeHunkHeaders(diff: string, fileText: string) returns (r: Result<string, PatchError>)
    ensures r == Resolve(diff, fileText)
  {
    hide Locate, Matches, Readable, BareLines, CollapseCrlf, Sections;
    var ls := Lines(diff);
    if ls.Err? { return Err(ls.error); }
    var lines := ls.value;
    if lines == [] || !StartsHunk(lines[0]) { return Err(InvalidPatch); }
    var file := Lines(fileText);
    if file.Err? { return Err(file.error); }
    var original := file.value;
    var result: seq<string> := [];
    var i, cursor: nat, delta := 0, 0, 0;
    assert lines[0..] == lines;
    while i < |lines|
      invariant i <= |lines|
      invariant i < |lines| ==> StartsHunk(lines[i])
      invariant Continue([], ResolveSections(Sections(lines), original, 0, 0)) ==
                Continue(result, ResolveSections(Sections(lines[i..]), original, cursor, delta))
    {
      ghost var from, sofar := i, result;
      var header := lines[i];
      i := i + 1;
      var body: seq<string> := [];
      while i < |lines| && !StartsHunk(lines[i])
        invariant from + 1 <= i <= |lines|
        invariant body == lines[from + 1..i]
        invariant forall x | from + 1 <= x < i :: !StartsHunk(lines[x])
      {
        body := body + [lines[i]];
        i := i + 1;
      }
      NextSection(lines, from, i);
      var located := Locate(Section(header, body), original, cursor, delta);
      if located.Err? { return Err(located.error); }
      var l := located.value;
      cursor := l.start + l.oldCount;
      delta := delta + l.newCount - l.oldCount;
      result := result + [l.header] + body;
      ContinueSection(sofar, Section(l.header, body), ResolveSections(Sections(lines[i..]), original, cursor, delta));
    }
    NoSectionLeft(lines);
    assert result + [] == result;
    return Ok(Join(result) + "\n");
  }

  lemma {:induction false} NoSectionLeft(ls: seq<string>)
    ensures Sections(ls[|ls|..]) == []
    ensures forall s: seq<string> :: [] + s == s
  {
  }
}
