/** How L1 shortens the content of one tool item: whole lines, the important ones first. */
module ToolTruncation {
  import opened HistoryItems

  const DEFAULT_TRUNCATION: nat := 150
  const LEAST_BODY: int := 16

  /** The token limit for a tool's content. */
  function TruncationLimit(toolName: string): nat {
    if toolName == "list_files" then 60
    else if toolName == "grep" then 230
    else if toolName == "read_file" then 570
    else if toolName == "write_file" then 90
    else if toolName == "patch_file" then 90
    else if toolName == "run_shell" then 145
    else DEFAULT_TRUNCATION
  }

  predicate IsImportant(line: string) {
    Contains(line, "Error") || Contains(line, "error") || Contains(line, "Fail") || Contains(line, "/")
  }

  /** The lines that are important, or those that are not, in order. */
  function Select(lines: seq<string>, important: bool): seq<string> {
    if lines == [] then []
    else Select(lines[..|lines| - 1], important)
         + if IsImportant(lines[|lines| - 1]) == important then [lines[|lines| - 1]] else []
  }

  function Ordered(lines: seq<string>): seq<string> { Select(lines, true) + Select(lines, false) }

  /** "\n".join(lines) */
  function Joined(lines: seq<string>): string {
    if lines == [] then ""
    else if |lines| == 1 then lines[0]
    else Joined(lines[..|lines| - 1]) + "\n" + lines[|lines| - 1]
  }

  predicate Fitting(env: Env, lines: seq<string>, n: nat, limit: int)
    requires n <= |lines|
  {
    env.countText(Joined(lines[..n])) <= limit
  }

  /** How many lines are taken from `i` on: as long as all taken so far fit together. */
  function Taken(env: Env, lines: seq<string>, i: nat, limit: int): (n: nat)
    requires i <= |lines|
    ensures i <= n <= |lines|
    decreases |lines| - i
  {
    if i < |lines| && Fitting(env, lines, i + 1, limit) then Taken(env, lines, i + 1, limit) else i
  }

  /** The taken lines; a first line that is too long, or a content without text, is trimmed instead. */
  function Body(env: Env, content: string, limit: int): string {
    var lines := Ordered(env.splitLines(content));
    var n := Taken(env, lines, 0, limit);
    if n == 0 && lines != [] then env.fit(lines[0], limit)
    else if Joined(lines[..n]) == "" then env.fit(content, limit)
    else Joined(lines[..n])
  }

  function Max(a: int, b: int): int { if a <= b then b else a }

  function BodyLimit(env: Env, content: string, toolName: string): int {
    Max(LEAST_BODY, TruncationLimit(toolName) - env.countText(Suffix(env, content)))
  }

  function Suffix(env: Env, content: string): string { env.truncationNote(env.countText(content)) }

  function Truncate(env: Env, content: string, toolName: string): string {
    if env.countText(content) <= TruncationLimit(toolName) then content
    else Body(env, content, BodyLimit(env, content, toolName)) + Suffix(env, content)
  }

  // ----- the loops

  method Partition(lines: seq<string>) returns (ordered: seq<string>)
    ensures ordered == Ordered(lines)
  {
    hide IsImportant;
    var important: seq<string> := [];
    var other: seq<string> := [];
    for i := 0 to |lines|
      invariant important == Select(lines[..i], true) && other == Select(lines[..i], false)
    {
      assert lines[..i + 1][..i] == lines[..i];
      if IsImportant(lines[i]) { important := important + [lines[i]]; } else { other := other + [lines[i]]; }
    }
    assert lines[..|lines|] == lines;
    return important + other;
  }

  lemma {:induction false} JoinedMore(lines: seq<string>, n: nat)
    requires n < |lines|
    ensures Joined(lines[..n] + [lines[n]]) == Joined(lines[..n + 1])
  {
    assert lines[..n] + [lines[n]] == lines[..n + 1];
  }

  lemma {:induction false} TakenStep(env: Env, lines: seq<string>, i: nat, limit: int)
    requires i <= |lines|
    ensures Taken(env, lines, i, limit)
         == if i < |lines| && Fitting(env, lines, i + 1, limit) then Taken(env, lines, i + 1, limit) else i
  {
  }

  lemma {:induction false} TakenFits(env: Env, lines: seq<string>, i: nat, limit: int)
    requires i <= |lines| && forall k | 0 < k <= i :: Fitting(env, lines, k, limit)
    ensures var n := Taken(env, lines, i, limit);
            && (forall k | 0 < k <= n :: Fitting(env, lines, k, limit))
            && (n < |lines| ==> !Fitting(env, lines, n + 1, limit))
    decreases |lines| - i
  {
    hide Fitting;
    if i < |lines| && Fitting(env, lines, i + 1, limit) { TakenFits(env, lines, i + 1, limit); }
  }

  /** The trimming of a joined text that does not fit is never needed: what was taken fits. */
  method TruncateToolContent(env: Env, content: string, toolName: string) returns (r: string)
    ensures r == Truncate(env, content, toolName)
  {
    hide Select, Joined, Taken, IsImportant, Fitting;
    var limit, total := TruncationLimit(toolName), env.countText(content);
    if total <= limit { return content; }
    var suffix := env.truncationNote(total);
    var bodyLimit := Max(LEAST_BODY, limit - env.countText(suffix));
    var lines := Partition(env.splitLines(content));
    var taken: seq<string> := [];
    var i := 0;
    assert lines[..0] == [];
    while i < |lines|
      invariant 0 <= i <= |lines| && taken == lines[..i]
      invariant Taken(env, lines, 0, bodyLimit) == Taken(env, lines, i, bodyLimit)
    {
      TakenStep(env, lines, i, bodyLimit);
      JoinedMore(lines, i);
      FittingIs(env, lines, i + 1, bodyLimit);
      if env.countText(Joined(taken + [lines[i]])) > bodyLimit {
        if taken == [] { return env.fit(lines[i], bodyLimit) + suffix; }
        break;
      }
      taken := taken + [lines[i]];
      i := i + 1;
    }
    TakenStep(env, lines, i, bodyLimit);
    TakenFits(env, lines, 0, bodyLimit);
    FittingIs(env, lines, i, bodyLimit);
    var body := Joined(taken);
    if body == "" {
      body := env.fit(content, bodyLimit);
    } else if env.countText(body) > bodyLimit {
      JoinedNothing();
      body := env.fit(body, bodyLimit);
    }
    return body + suffix;
  }

  lemma {:induction false} FittingIs(env: Env, lines: seq<string>, n: nat, limit: int)
    requires n <= |lines|
    ensures Fitting(env, lines, n, limit) <==> env.countText(Joined(lines[..n])) <= limit
  {
  }

  lemma {:induction false} JoinedNothing()
    ensures Joined([]) == ""
  {
  }

  // ----- what a truncated content is

  /** Trimming to a limit keeps it. */
  ghost predicate Trims(env: Env) {
    forall text, n: nat :: env.countText(env.fit(text, n)) <= n
  }

  /** The tokens of two texts bound those of both together. */
  ghost predicate CountsAddUp(env: Env) {
    forall a, b :: env.countText(a + b) <= env.countText(a) + env.countText(b)
  }

  lemma {:induction false} SelectConcat(a: seq<string>, b: seq<string>, important: bool)
    ensures Select(a + b, important) == Select(a, important) + Select(b, important)
  {
    hide IsImportant;
    if b == [] {
      assert a + b == a;
    } else {
      assert (a + b)[..|a + b| - 1] == a + b[..|b| - 1];
      SelectConcat(a, b[..|b| - 1], important);
    }
  }

  lemma {:induction false} SelectTwice(lines: seq<string>, first: bool, important: bool)
    ensures Select(Select(lines, first), important) == if first == important then Select(lines, first) else []
    ensures forall line | line in Select(lines, first) :: IsImportant(line) == first
  {
    hide *;
    if lines == [] {
      SelectNothing(first);
      SelectNothing(important);
    } else {
      var front, last := lines[..|lines| - 1], lines[|lines| - 1];
      SelectTwice(front, first, important);
      SelectLast(lines, first);
      if IsImportant(last) == first {
        SelectConcat(Select(front, first), [last], important);
        SelectOne(last, important);
      }
    }
  }

  lemma {:induction false} SelectNothing(important: bool)
    ensures Select([], important) == []
  {
  }

  lemma {:induction false} SelectOne(line: string, important: bool)
    ensures Select([line], important) == if IsImportant(line) == important then [line] else []
  {
    hide IsImportant;
    assert [line][..0] == [];
    SelectNothing(important);
  }

  lemma {:induction false} SelectLast(lines: seq<string>, important: bool)
    requires lines != []
    ensures var front, last := Select(lines[..|lines| - 1], important), lines[|lines| - 1];
            Select(lines, important) == if IsImportant(last) == important then front + [last] else front
  {
    hide IsImportant;
    assert Select(lines[..|lines| - 1], important) + [] == Select(lines[..|lines| - 1], important);
  }

  /** The same lines with the important ones in front, each kind in its old order. */
  ghost predicate StablyOrdered(lines: seq<string>, ordered: seq<string>) {
    && Select(ordered, true) == Select(lines, true) && Select(ordered, false) == Select(lines, false)
    && forall i, j | 0 <= i < j < |ordered| && IsImportant(ordered[j]) :: IsImportant(ordered[i])
  }

  lemma {:induction false} OrderedIsStable(lines: seq<string>)
    ensures StablyOrdered(lines, Ordered(lines))
  {
    hide IsImportant, Select;
    var important, other := Select(lines, true), Select(lines, false);
    SelectTwice(lines, true, true);
    SelectTwice(lines, true, false);
    SelectTwice(lines, false, true);
    SelectTwice(lines, false, false);
    SelectConcat(important, other, true);
    SelectConcat(important, other, false);
    assert important + [] == important && [] + other == other;
  }

  /** Of a content that is too long the first lines in that order are kept, one by one for as long as
      they fit; where not even the first one fits, or the lines taken are blank, what is kept is trimmed. */
  ghost predicate Keeps(env: Env, content: string, limit: int, body: string, lines: seq<string>, n: nat) {
    && StablyOrdered(env.splitLines(content), lines)
    && n <= |lines| && (forall k | 0 < k <= n :: Fitting(env, lines, k, limit))
    && (n < |lines| ==> !Fitting(env, lines, n + 1, limit))
    && body == (if n == 0 && lines != [] then env.fit(lines[0], limit)
                else if Joined(lines[..n]) == "" then env.fit(content, limit)
                else Joined(lines[..n]))
  }

  ghost predicate KeepsMost(env: Env, content: string, limit: int, body: string) {
    exists lines: seq<string>, n: nat :: Keeps(env, content, limit, body, lines, n)
  }

  lemma {:induction false} BodyKeepsMost(env: Env, content: string, limit: int)
    ensures KeepsMost(env, content, limit, Body(env, content, limit))
  {
    hide Ordered, Joined, Taken, Fitting, StablyOrdered;
    var lines := Ordered(env.splitLines(content));
    OrderedIsStable(env.splitLines(content));
    TakenFits(env, lines, 0, limit);
    assert Keeps(env, content, limit, Body(env, content, limit), lines, Taken(env, lines, 0, limit));
  }

  lemma {:induction false} BodyFits(env: Env, content: string, limit: nat)
    requires Trims(env)
    ensures env.countText(Body(env, content, limit)) <= limit
  {
    hide Ordered, Joined, Taken;
    var lines := Ordered(env.splitLines(content));
    var n := Taken(env, lines, 0, limit);
    TakenFits(env, lines, 0, limit);
    JoinedNothing();
    assert lines[..0] == [];
    assert n > 0 ==> Fitting(env, lines, n, limit);
  }

  /** A content within the limit stays as it is. A longer one becomes the most of it that fits beside
      the note; it comes out within the limit, or within the note and the least body where the note
      leaves less than that. So it gets shorter, and stays as it is the second time, whenever the note
      and the least body fit the limit. */
  lemma {:induction false} TruncationShortens(env: Env, content: string, toolName: string)
    requires Trims(env) && CountsAddUp(env)
    ensures var limit, r := TruncationLimit(toolName), Truncate(env, content, toolName);
            if env.countText(content) <= limit then r == content
            else
              && (exists body :: KeepsMost(env, content, BodyLimit(env, content, toolName), body)
                                 && r == body + Suffix(env, content))
              && env.countText(r) <= Max(limit, LEAST_BODY + env.countText(Suffix(env, content)))
              && (LEAST_BODY + env.countText(Suffix(env, content)) <= limit ==>
                    env.countText(r) < env.countText(content) && Truncate(env, r, toolName) == r)
  {
    hide KeepsMost, Body, TruncationLimit;
    var limit := BodyLimit(env, content, toolName);
    BodyKeepsMost(env, content, limit);
    BodyFits(env, content, limit);
  }
}
