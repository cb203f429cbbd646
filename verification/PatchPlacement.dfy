/** Where the resolver places the hunks of an update, stated over positions in the file. */
module PatchPlacement {
  import opened Results
  import opened Sequences
  import opened PatchText
  import opened PatchHeader
  import opened PatchHunks
  import opened PatchApply
  import opened PatchRefusals
  import opened PatchResolve
  import opened PatchResolveLaws

  // ----- sections

  /** The sections are the lines of the update, cut in front of every line that starts a hunk. */
  lemma {:induction false} SectionsAreCuts(ls: seq<string>)
    requires ls != [] ==> StartsHunk(ls[0])
    ensures Flat(Sections(ls)) == ls && (ls != [] ==> Sections(ls) != [])
    ensures forall s | s in Sections(ls) :: StartsHunk(s.header) && forall line | line in s.body :: !StartsHunk(line)
    decreases |ls|
  {
    if ls != [] {
      var k := BodyRun(ls[1..]);
      SectionsAreCuts(ls[1..][k..]);
      FlatCons(Section(ls[0], ls[1..][..k]), Sections(ls[1..][k..]));
      assert [ls[0]] + ls[1..][..k] + ls[1..][k..] == ls;
    }
  }

  lemma {:induction false} FlatCons(first: Section, more: seq<Section>)
    ensures Flat([first] + more) == [first.header] + first.body + Flat(more)
  {
    assert ([first] + more)[1..] == more;
  }

  // ----- positions

  /** From line `from` on, the texts stand at `p` and nowhere else. */
  ghost predicate StandsOnlyAt(original: seq<string>, texts: seq<string>, from: nat, p: nat) {
    && from <= p && StandsAt(original, texts, p)
    && forall q: nat | from <= q && StandsAt(original, texts, q) :: q == p
  }

  lemma {:induction false} StandingIsSlice(original: seq<string>, texts: seq<string>, p: nat)
    requires p + |texts| <= |original|
    ensures original[p..p + |texts|] == texts <==> StandsAt(original, texts, p)
  {
    var part := original[p..p + |texts|];
    assert forall i | 0 <= i < |part| :: part[i] == original[p + i];
  }

  lemma {:induction false} MatchesAreStanding(original: seq<string>, texts: seq<string>, from: nat, p: nat)
    ensures p in Matches(original, texts, from) <==> from <= p && StandsAt(original, texts, p)
  {
    if p + |texts| <= |original| { StandingIsSlice(original, texts, p); }
  }

  lemma {:induction false} NoMatch(original: seq<string>, texts: seq<string>, from: nat)
    requires forall q: nat | from <= q :: !StandsAt(original, texts, q)
    ensures Matches(original, texts, from) == []
  {
    hide Matches;
    var ps := Matches(original, texts, from);
    assert ps == [] || ps[0] in ps;
    forall q: nat ensures q !in ps { MatchesAreStanding(original, texts, from, q); }
  }

  lemma {:induction false} OnlyMatch(original: seq<string>, texts: seq<string>, from: nat, p: nat)
    requires StandsOnlyAt(original, texts, from, p)
    ensures Matches(original, texts, from) == [p]
    decreases |original| - from
  {
    if from + |texts| <= |original| { StandingIsSlice(original, texts, from); }
    hide StandsAt;
    if from < p {
      StandsInside(original, texts, p);
      OnlyMatch(original, texts, from + 1, p);
    } else if from < |original| {
      StandsInside(original, texts, p);
      NoMatch(original, texts, from + 1);
    } else {
      StandsInside(original, texts, p);
    }
  }

  lemma {:induction false} StandsInside(original: seq<string>, texts: seq<string>, p: nat)
    requires StandsAt(original, texts, p)
    ensures p + |texts| <= |original|
  {
  }

  /** There is exactly one match exactly when the texts stand at one position only. */
  lemma {:induction false} OneMatch(original: seq<string>, texts: seq<string>, from: nat, p: nat)
    ensures Matches(original, texts, from) == [p] <==> StandsOnlyAt(original, texts, from, p)
  {
    hide Matches, StandsAt;
    if Matches(original, texts, from) == [p] {
      forall q: nat ensures q in Matches(original, texts, from) <==> from <= q && StandsAt(original, texts, q) {
        MatchesAreStanding(original, texts, from, q);
      }
      assert p in Matches(original, texts, from);
    }
    if StandsOnlyAt(original, texts, from, p) { OnlyMatch(original, texts, from, p); }
  }

  // ----- what one hunk needs

  predicate BareHeader(header: string) { header == "@@" || StartsWith(header, "@@ ") }

  /** Where a hunk goes: where its numbers say, or, under a bare header, to the only position behind the
      previous hunk at which its old texts stand. */
  ghost predicate Lands(s: Section, original: seq<string>, cursor: nat, delta: int, l: Located) {
    if ReadHeader(s.header).Some? then
      && l.header == s.header
      && Coordinates(s.header).Ok?
      && var c := Coordinates(s.header).value;
         l.start == c.start && l.oldCount == c.oldCount && l.newCount == c.newCount
    else
      && BareHeader(s.header)
      && Texts(Old, s.body) != [] && StandsOnlyAt(original, Texts(Old, s.body), cursor, l.start)
      && l.oldCount == |Texts(Old, s.body)| && l.newCount == |Texts(New, s.body)|
      && l.header == ResolvedHeader(l.start + 1, l.oldCount,
                                    l.start + delta + (if l.newCount > 0 then 1 else 0), l.newCount)
  }

  /** Why a hunk goes nowhere. */
  ghost predicate Strays(s: Section, original: seq<string>, cursor: nat, e: PatchError) {
    if ReadHeader(s.header).Some? then Coordinates(s.header) == Err(e)
    else if !BareHeader(s.header) || Texts(Old, s.body) == [] then e == InvalidPatch
    else e == StalePreimage && forall p: nat :: !StandsOnlyAt(original, Texts(Old, s.body), cursor, p)
  }

  lemma {:induction false} LocateBare(s: Section, original: seq<string>, cursor: nat, delta: int)
    requires ReadHeader(s.header).None?
    ensures match Locate(s, original, cursor, delta)
            case Ok(l) =>
              && BareHeader(s.header) && Texts(Old, s.body) != []
              && Matches(original, Texts(Old, s.body), cursor) == [l.start]
              && l.oldCount == |Texts(Old, s.body)| && l.newCount == |Texts(New, s.body)|
              && l.header == ResolvedHeader(l.start + 1, l.oldCount,
                                            l.start + delta + (if l.newCount > 0 then 1 else 0), l.newCount)
            case Err(e) =>
              if !BareHeader(s.header) || Texts(Old, s.body) == [] then e == InvalidPatch
              else e == StalePreimage && |Matches(original, Texts(Old, s.body), cursor)| != 1
  {
    hide ReadHeader, Matches, Texts, ResolvedHeader, StartsWith;
    var ps := Matches(original, Texts(Old, s.body), cursor);
    assert |ps| == 1 ==> ps == [ps[0]];
  }

  lemma {:induction false} LocateNumeric(s: Section, original: seq<string>, cursor: nat, delta: int)
    requires ReadHeader(s.header).Some?
    ensures match Locate(s, original, cursor, delta)
            case Ok(l) => Lands(s, original, cursor, delta, l)
            case Err(e) => Strays(s, original, cursor, e)
    ensures forall l :: Lands(s, original, cursor, delta, l) ==> Locate(s, original, cursor, delta) == Ok(l)
  {
    hide ReadHeader, Coordinates, Matches, Texts, ResolvedHeader, StandsOnlyAt;
  }

  lemma {:induction false} LocateIs(s: Section, original: seq<string>, cursor: nat, delta: int)
    ensures match Locate(s, original, cursor, delta)
            case Ok(l) => Lands(s, original, cursor, delta, l)
            case Err(e) => Strays(s, original, cursor, e)
    ensures forall l :: Lands(s, original, cursor, delta, l) ==> Locate(s, original, cursor, delta) == Ok(l)
  {
    if ReadHeader(s.header).Some? {
      hide *;
      LocateNumeric(s, original, cursor, delta);
    } else {
      LocateBare(s, original, cursor, delta);
      var texts := Texts(Old, s.body);
      hide Locate, ReadHeader, Coordinates, Matches, Texts, ResolvedHeader, StandsOnlyAt, BareHeader;
      forall p: nat ensures Matches(original, texts, cursor) == [p] <==> StandsOnlyAt(original, texts, cursor, p) {
        OneMatch(original, texts, cursor, p);
      }
    }
  }

  // ----- the whole update

  /** Section by section, each hunk lands behind the one before it. */
  ghost predicate AllLand(sections: seq<Section>, original: seq<string>, cursor: nat, delta: int, ls: seq<Located>)
    decreases |sections|
  {
    && |ls| == |sections|
    && (sections != [] ==>
          && Lands(sections[0], original, cursor, delta, ls[0])
          && AllLand(sections[1..], original, ls[0].start + ls[0].oldCount,
                     delta + ls[0].newCount - ls[0].oldCount, ls[1..]))
  }

  /** The hunks land up to one that goes nowhere. */
  ghost predicate OneStrays(sections: seq<Section>, original: seq<string>, cursor: nat, delta: int, ls: seq<Located>,
                            e: PatchError)
    decreases |sections|
  {
    && sections != [] && |ls| < |sections|
    && if ls == [] then Strays(sections[0], original, cursor, e)
       else
         && Lands(sections[0], original, cursor, delta, ls[0])
         && OneStrays(sections[1..], original, ls[0].start + ls[0].oldCount,
                      delta + ls[0].newCount - ls[0].oldCount, ls[1..], e)
  }

  function Headed(sections: seq<Section>, ls: seq<Located>): seq<Section>
    requires |ls| == |sections|
  {
    if sections == [] then [] else [Section(ls[0].header, sections[0].body)] + Headed(sections[1..], ls[1..])
  }

  lemma {:induction false} ResolveOne(s: Section, more: seq<Section>, original: seq<string>, cursor: nat, delta: int)
    ensures ResolveSections([s] + more, original, cursor, delta) ==
            match Locate(s, original, cursor, delta)
            case Err(e) => Err(e)
            case Ok(l) =>
              AfterSection(Section(l.header, s.body),
                           ResolveSections(more, original, l.start + l.oldCount, delta + l.newCount - l.oldCount))
  {
    hide Locate;
    assert ([s] + more)[1..] == more;
  }

  lemma {:induction false} LandedSections(sections: seq<Section>, original: seq<string>, cursor: nat, delta: int,
                                          ls: seq<Located>)
    requires AllLand(sections, original, cursor, delta, ls)
    ensures ResolveSections(sections, original, cursor, delta) == Ok(Headed(sections, ls))
    decreases |sections|
  {
    hide Locate, Lands, Matches;
    if sections != [] {
      var l := ls[0];
      LocateIs(sections[0], original, cursor, delta);
      assert Lands(sections[0], original, cursor, delta, l);
      LandedSections(sections[1..], original, l.start + l.oldCount, delta + l.newCount - l.oldCount, ls[1..]);
      ResolveOne(sections[0], sections[1..], original, cursor, delta);
      assert [sections[0]] + sections[1..] == sections;
    }
  }

  lemma {:induction false} SectionsLand(sections: seq<Section>, original: seq<string>, cursor: nat, delta: int)
    returns (ls: seq<Located>)
    ensures match ResolveSections(sections, original, cursor, delta)
            case Ok(resolved) => AllLand(sections, original, cursor, delta, ls) && resolved == Headed(sections, ls)
            case Err(e) => OneStrays(sections, original, cursor, delta, ls, e)
    decreases |sections|
  {
    hide Locate, Lands, Strays, Matches;
    ls := [];
    if sections != [] {
      LocateIs(sections[0], original, cursor, delta);
      ResolveOne(sections[0], sections[1..], original, cursor, delta);
      assert [sections[0]] + sections[1..] == sections;
      match Locate(sections[0], original, cursor, delta)
      case Err(_) =>
      case Ok(l) =>
        var rest := SectionsLand(sections[1..], original, l.start + l.oldCount, delta + l.newCount - l.oldCount);
        ls := [l] + rest;
        assert ls[1..] == rest;
    }
  }

  /** An update that is refused strays in one way only. */
  lemma {:induction false} StrayingRefuses(sections: seq<Section>, original: seq<string>, cursor: nat, delta: int,
                                           ls: seq<Located>, e: PatchError)
    requires OneStrays(sections, original, cursor, delta, ls, e)
    ensures ResolveSections(sections, original, cursor, delta) == Err(e)
    decreases |sections|
  {
    hide Locate, Matches;
    LocateIs(sections[0], original, cursor, delta);
    ResolveOne(sections[0], sections[1..], original, cursor, delta);
    assert [sections[0]] + sections[1..] == sections;
    if ls == [] {
      StrayIsNotLanding(sections[0], original, cursor, delta, e);
    } else {
      var l := ls[0];
      hide Lands, Strays;
      assert Lands(sections[0], original, cursor, delta, l);
      StrayingRefuses(sections[1..], original, l.start + l.oldCount, delta + l.newCount - l.oldCount, ls[1..], e);
    }
  }

  lemma {:induction false} StrayIsNotLanding(s: Section, original: seq<string>, cursor: nat, delta: int, e: PatchError)
    requires Strays(s, original, cursor, e)
    ensures Locate(s, original, cursor, delta) == Err(e)
  {
    LocateIs(s, original, cursor, delta);
    hide Coordinates, ReadHeader, Matches, StandsOnlyAt, ResolvedHeader, Texts, Locate;
  }

  /** The text written when the hunks land there. */
  ghost predicate Writes(sections: seq<Section>, original: seq<string>, ls: seq<Located>, output: string) {
    AllLand(sections, original, 0, 0, ls) && output == Join(Flat(Headed(sections, ls))) + "\n"
  }

  lemma {:induction false} WrittenIs(sections: seq<Section>, original: seq<string>, ls: seq<Located>, output: string)
    requires Writes(sections, original, ls, output)
    ensures ResolveSections(sections, original, 0, 0).Ok?
    ensures output == Join(Flat(ResolveSections(sections, original, 0, 0).value)) + "\n"
  {
    LandedSections(sections, original, 0, 0, ls);
    hide ResolveSections, Flat, Join;
  }

  /** The update and the file are readable, and the update begins with a hunk. */
  predicate Resolvable(diff: string, source: string) {
    Lines(diff).Ok? && Lines(diff).value != [] && StartsHunk(Lines(diff).value[0]) && Lines(source).Ok?
  }

  lemma {:induction false} ResolveIs(diff: string, source: string)
    ensures !Resolvable(diff, source) ==> Resolve(diff, source).Err?
    ensures Resolvable(diff, source) ==>
              match ResolveSections(Sections(Lines(diff).value), Lines(source).value, 0, 0)
              case Ok(resolved) => Resolve(diff, source) == Ok(Join(Flat(resolved)) + "\n")
              case Err(e) => Resolve(diff, source) == Err(e)
  {
    hide Lines, Sections, ResolveSections, Join, Flat, StartsHunk;
  }

  lemma {:induction false} ResolvableIs(diff: string, source: string)
    requires Resolvable(diff, source)
    ensures Lines(diff).Ok? && Lines(source).Ok?
  {
    hide Lines;
  }

  /** Exactly which updates are resolved, and to what: the readable ones that begin with a hunk, for readable
      files, all of whose hunks land; each is written under the header of where it landed. */
  lemma {:induction false} UpdatesResolveExactly(diff: string, source: string, output: string)
    ensures Resolve(diff, source) == Ok(output)
            <==> Resolvable(diff, source)
                 && exists ls :: Writes(Sections(Lines(diff).value), Lines(source).value, ls, output)
  {
    hide *;
    ResolveIs(diff, source);
    if Resolvable(diff, source) {
      ResolvableIs(diff, source);
      var sections, original := Sections(Lines(diff).value), Lines(source).value;
      var found := SectionsLand(sections, original, 0, 0);
      if Resolve(diff, source) == Ok(output) { IsWritten(sections, original, found, output); }
      if exists ls :: Writes(sections, original, ls, output) {
        var ls :| Writes(sections, original, ls, output);
        WrittenIs(sections, original, ls, output);
      }
    }
  }

  lemma {:induction false} IsWritten(sections: seq<Section>, original: seq<string>, ls: seq<Located>, output: string)
    requires AllLand(sections, original, 0, 0, ls) && output == Join(Flat(Headed(sections, ls))) + "\n"
    ensures Writes(sections, original, ls, output)
  {
  }

  /** Exactly why a readable update to a readable file is refused: some hunk goes nowhere. A bare header
      without old texts is invalid; one whose old texts stand nowhere, or at several positions behind the
      previous hunk, is stale. */
  lemma {:induction false} UpdatesAreRefusedExactly(diff: string, source: string, e: PatchError)
    requires Resolvable(diff, source)
    ensures Lines(diff).Ok? && Lines(source).Ok?
    ensures Resolve(diff, source) == Err(e)
            <==> exists ls :: OneStrays(Sections(Lines(diff).value), Lines(source).value, 0, 0, ls, e)
  {
    hide *;
    ResolveIs(diff, source);
    ResolvableIs(diff, source);
    var sections, original := Sections(Lines(diff).value), Lines(source).value;
    var found := SectionsLand(sections, original, 0, 0);
    if exists ls :: OneStrays(sections, original, 0, 0, ls, e) {
      var ls :| OneStrays(sections, original, 0, 0, ls, e);
      StrayingRefuses(sections, original, 0, 0, ls, e);
    }
  }

  // ----- updates whose headers are all bare

  /** Behind the hunks before it, each hunk's old texts stand at its position and nowhere else. */
  ghost predicate Placed(sections: seq<Section>, original: seq<string>, cursor: nat, starts: seq<nat>)
    decreases |sections|
  {
    && |starts| == |sections|
    && (sections != [] ==>
          var texts := Texts(Old, sections[0].body);
          && BareHeader(sections[0].header) && texts != [] && StandsOnlyAt(original, texts, cursor, starts[0])
          && Placed(sections[1..], original, starts[0] + |texts|, starts[1..]))
  }

  /** The hunks have the positions as their old coordinates, and the texts of their bodies. */
  predicate Coordinated(hunks: seq<Hunk>, sections: seq<Section>, starts: seq<nat>, delta: int)
    decreases |sections|
  {
    && |hunks| == |starts| == |sections|
    && (sections != [] ==>
          && AllOf(hunks[0], sections[0])
          && starts[0] + delta >= 0
          && Coordinates(hunks[0].header)
             == Ok(Coords(starts[0], |Texts(Old, sections[0].body)|, starts[0] + delta, |Texts(New, sections[0].body)|))
          && Coordinated(hunks[1..], sections[1..], starts[1..],
                         delta + |Texts(New, sections[0].body)| - |Texts(Old, sections[0].body)|))
  }

  /** The lines of the hunk are those of the section, none of them marked. */
  predicate AllOf(hunk: Hunk, s: Section) {
    BodyLines(s.body) && hunk.lines == BodyOf(s.body)
  }

  lemma {:induction false} LandsIsPlaced(s: Section, original: seq<string>, cursor: nat, delta: int, l: Located)
    requires BareSection(s) && cursor + delta >= 0
    ensures Lands(s, original, cursor, delta, l) ==>
              && BareHeader(s.header) && Texts(Old, s.body) != []
              && StandsOnlyAt(original, Texts(Old, s.body), cursor, l.start)
              && l.oldCount == |Texts(Old, s.body)| && l.newCount == |Texts(New, s.body)|
              && l.start + delta >= 0
              && Coordinates(l.header) == Ok(Coords(l.start, l.oldCount, l.start + delta, l.newCount))
  {
    if Lands(s, original, cursor, delta, l) {
      LocateIs(s, original, cursor, delta);
      LocatedBare(s, original, cursor, delta, l);
      hide Locate, Coordinates, Texts, StandsOnlyAt, ResolvedHeader, BareHeader, BodyLines, CleanLines;
    }
  }

  lemma {:induction false} PlacedLands(s: Section, original: seq<string>, cursor: nat, delta: int, p: nat)
    requires BareSection(s) && BareHeader(s.header) && Texts(Old, s.body) != []
    requires StandsOnlyAt(original, Texts(Old, s.body), cursor, p)
    ensures var m := |Texts(New, s.body)|;
            Lands(s, original, cursor, delta,
                  Located(ResolvedHeader(p + 1, |Texts(Old, s.body)|, p + delta + (if m > 0 then 1 else 0), m), p,
                          |Texts(Old, s.body)|, m))
  {
    hide Coordinates, Texts, StandsOnlyAt, ResolvedHeader, BareHeader, BodyLines, CleanLines;
  }

  lemma {:induction false} PlacedAllLand(sections: seq<Section>, original: seq<string>, cursor: nat, delta: int,
                                         starts: seq<nat>) returns (ls: seq<Located>)
    requires BareSections(sections) && Placed(sections, original, cursor, starts)
    ensures AllLand(sections, original, cursor, delta, ls)
    decreases |sections|
  {
    hide Lands, BareSection, StandsOnlyAt, Texts, ResolvedHeader, BareHeader;
    ls := [];
    if sections != [] {
      var s, p := sections[0], starts[0];
      PlacedLands(s, original, cursor, delta, p);
      var n, m := |Texts(Old, s.body)|, |Texts(New, s.body)|;
      var l := Located(ResolvedHeader(p + 1, n, p + delta + (if m > 0 then 1 else 0), m), p, n, m);
      var rest := PlacedAllLand(sections[1..], original, p + n, delta + m - n, starts[1..]);
      ls := [l] + rest;
      assert ls[1..] == rest;
    }
  }

  lemma {:induction false} AllLandIsPlaced(sections: seq<Section>, original: seq<string>, cursor: nat, delta: int,
                                           ls: seq<Located>) returns (starts: seq<nat>)
    requires BareSections(sections) && AllLand(sections, original, cursor, delta, ls) && cursor + delta >= 0
    ensures Placed(sections, original, cursor, starts) && AllBodyLines(Headed(sections, ls))
    ensures Coordinated(HunksOf(Headed(sections, ls)), sections, starts, delta)
    decreases |sections|
  {
    hide Lands, BareSection, StandsOnlyAt, Texts, BareHeader, Coordinates, HunksOf, AllBodyLines, BodyLines, BodyOf;
    starts := [];
    if sections == [] {
      NoHunks();
    } else {
      var s, l := sections[0], ls[0];
      LandsIsPlaced(s, original, cursor, delta, l);
      BareIsClean(s);
      var rest := AllLandIsPlaced(sections[1..], original, l.start + l.oldCount, delta + l.newCount - l.oldCount,
                                  ls[1..]);
      starts := [l.start] + rest;
      assert starts[1..] == rest;
      HunksOfStep(Section(l.header, s.body), Headed(sections[1..], ls[1..]));
    }
  }

  lemma {:induction false} NoHunks()
    ensures AllBodyLines([]) && HunksOf([]) == []
  {
  }

  /** Exactly which updates with bare headers are resolved: those to readable files each of whose hunks has old
      texts that stand, behind the hunk before, at exactly one position. */
  lemma {:induction false} BareUpdatesResolveExactly(diff: string, source: string)
    requires Lines(diff).Ok? && Lines(diff).value != [] && StartsHunk(Lines(diff).value[0])
    requires BareUpdate(Lines(diff).value) && Lines(source).Ok?
    ensures Resolve(diff, source).Ok?
            <==> exists starts :: Placed(Sections(Lines(diff).value), Lines(source).value, 0, starts)
  {
    CleanLinesOf(diff);
    SectionsAreBare(Lines(diff).value);
    hide *;
    ResolveIs(diff, source) by { IsResolvable(diff, source); }
    IsResolvable(diff, source);
    var sections, original := Sections(Lines(diff).value), Lines(source).value;
    var found := SectionsLand(sections, original, 0, 0);
    if Resolve(diff, source).Ok? {
      var starts := AllLandIsPlaced(sections, original, 0, 0, found);
      assert Placed(sections, original, 0, starts);
    }
    if exists starts :: Placed(sections, original, 0, starts) {
      var starts :| Placed(sections, original, 0, starts);
      var ls := PlacedAllLand(sections, original, 0, 0, starts);
      LandedSections(sections, original, 0, 0, ls);
    }
  }

  lemma {:induction false} IsResolvable(diff: string, source: string)
    requires Lines(diff).Ok? && Lines(diff).value != [] && StartsHunk(Lines(diff).value[0]) && Lines(source).Ok?
    ensures Resolvable(diff, source)
  {
  }

  /** What is written is read back as hunks at exactly those positions, with the bodies of the update. */
  lemma {:induction false} ResolvedCoordinatesArePositions(diff: string, source: string, starts: seq<nat>)
    requires Lines(diff).Ok? && BareUpdate(Lines(diff).value) && Resolve(diff, source).Ok?
    ensures Lines(source).Ok? && Lines(diff).value != [] && ParsePatch(Resolve(diff, source).value).Ok?
    ensures ParsePatch(Resolve(diff, source).value).value.Diff?
    ensures Placed(Sections(Lines(diff).value), Lines(source).value, 0, starts) ==>
              Coordinated(ParsePatch(Resolve(diff, source).value).value.hunks, Sections(Lines(diff).value), starts, 0)
  {
    hide Readable, BareLines, CollapseCrlf, Sections, ResolveSections, Headed, Join, AllLand, Placed, Coordinated,
         BareUpdate, ParsePatch, HunksOf, AllBodyLines, BareSections, Resolve;
    ResolvedParses(diff, source);
    CleanLinesOf(diff);
    ResolveNeedsLines(diff, source);
    var sections, original := Sections(Lines(diff).value), Lines(source).value;
    SectionsAreBare(Lines(diff).value);
    var found := SectionsLand(sections, original, 0, 0);
    var positions := AllLandIsPlaced(sections, original, 0, 0, found);
    if Placed(sections, original, 0, starts) { PlacedOnce(sections, original, 0, starts, positions); }
  }

  lemma {:induction false} ResolveNeedsLines(diff: string, source: string)
    requires Resolve(diff, source).Ok?
    ensures Lines(diff).Ok? && Lines(diff).value != [] && StartsHunk(Lines(diff).value[0])
  {
    hide Lines, ResolveSections, Sections;
  }

  /** The positions are unique. */
  lemma {:induction false} PlacedOnce(sections: seq<Section>, original: seq<string>, cursor: nat, a: seq<nat>,
                                      b: seq<nat>)
    requires Placed(sections, original, cursor, a) && Placed(sections, original, cursor, b)
    ensures a == b
    decreases |sections|
  {
    hide Texts, StandsAt, BareHeader;
    if sections != [] {
      assert a[0] == b[0];
      PlacedOnce(sections[1..], original, a[0] + |Texts(Old, sections[0].body)|, a[1..], b[1..]);
      assert a == [a[0]] + a[1..] && b == [b[0]] + b[1..];
    }
  }

  /** An update of one bare hunk whose old texts stand at two positions is refused as stale. */
  lemma {:induction false} SecondPositionIsStale(diff: string, source: string, p: nat, q: nat)
    requires Resolvable(diff, source) && |Sections(Lines(diff).value)| == 1
    requires var s := Sections(Lines(diff).value)[0];
             && ReadHeader(s.header).None? && BareHeader(s.header) && Texts(Old, s.body) != [] && p != q
             && StandsAt(Lines(source).value, Texts(Old, s.body), p)
             && StandsAt(Lines(source).value, Texts(Old, s.body), q)
    ensures Resolve(diff, source) == Err(StalePreimage)
  {
    hide *;
    UpdatesAreRefusedExactly(diff, source, StalePreimage);
    var sections, original := Sections(Lines(diff).value), Lines(source).value;
    TwoPositionsStray(sections[0], original, p, q);
    StraysFirst(sections, original, StalePreimage);
  }

  lemma {:induction false} TwoPositionsStray(s: Section, original: seq<string>, p: nat, q: nat)
    requires ReadHeader(s.header).None? && BareHeader(s.header) && Texts(Old, s.body) != [] && p != q
    requires StandsAt(original, Texts(Old, s.body), p) && StandsAt(original, Texts(Old, s.body), q)
    ensures Strays(s, original, 0, StalePreimage)
  {
    hide Texts, StandsAt, BareHeader, ReadHeader, Coordinates;
  }

  lemma {:induction false} StraysFirst(sections: seq<Section>, original: seq<string>, e: PatchError)
    requires sections != [] && Strays(sections[0], original, 0, e)
    ensures OneStrays(sections, original, 0, 0, [], e)
  {
    hide Strays, Lands;
  }
}
