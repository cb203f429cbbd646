/** What heredoc lines around a patch change: they rewrite its newlines. */
module PatchHeredocs {
  import opened Sequences
  import opened PatchText
  import opened PatchFences

  // ----- collapsing line by line

  /** The text without one carriage return at its end. */
  function WithoutReturn(text: string): string {
    if text != "" && text[|text| - 1] == '\r' then text[..|text| - 1] else text
  }

  lemma {:induction false} CollapseChar(c: char, text: string)
    requires c != '\r' || text == "" || text[0] != '\n'
    ensures CollapseCrlf([c] + text) == [c] + CollapseCrlf(text)
  {
    assert ([c] + text)[1..] == text;
  }

  lemma {:induction false} CollapseEmptyLine(a: string, b: string)
    requires a == "" || a == "\r"
    ensures CollapseCrlf(a + "\n" + b) == CollapseCrlf(WithoutReturn(a)) + "\n" + CollapseCrlf(b)
  {
    assert CollapseCrlf("") == "" && WithoutReturn(a) == "";
    hide CollapseCrlf;
    if a == "" {
      assert a + "\n" + b == ['\n'] + b;
      CollapseChar('\n', b);
    } else {
      assert a + "\n" + b == "\r\n" + b;
      PairAt(b);
    }
  }

  /** Collapsing goes line by line; the carriage return in front of a line end is part of it. */
  lemma {:induction false} CollapseLine(a: string, b: string)
    ensures CollapseCrlf(a + "\n" + b) == CollapseCrlf(WithoutReturn(a)) + "\n" + CollapseCrlf(b)
    decreases |a|
  {
    hide *;
    if a == "" || a == "\r" {
      CollapseEmptyLine(a, b);
    } else if |a| >= 2 && a[0] == '\r' && a[1] == '\n' {
      CollapsePair(a, b);
      CollapseLine(a[2..], b);
    } else {
      CollapseFirst(a, b);
      CollapseLine(a[1..], b);
    }
  }

  lemma {:induction false} CollapsePair(a: string, b: string)
    requires |a| >= 2 && a[0] == '\r' && a[1] == '\n'
    ensures CollapseCrlf(a + "\n" + b) == "\n" + CollapseCrlf(a[2..] + "\n" + b)
    ensures CollapseCrlf(WithoutReturn(a)) == "\n" + CollapseCrlf(WithoutReturn(a[2..]))
  {
    hide CollapseCrlf;
    assert a + "\n" + b == "\r\n" + (a[2..] + "\n" + b);
    PairAt(a[2..] + "\n" + b);
    assert WithoutReturn(a) == "\r\n" + WithoutReturn(a[2..]);
    PairAt(WithoutReturn(a[2..]));
  }

  lemma {:induction false} CollapseFirst(a: string, b: string)
    requires a != "" && a != "\r" && !(|a| >= 2 && a[0] == '\r' && a[1] == '\n')
    ensures CollapseCrlf(a + "\n" + b) == [a[0]] + CollapseCrlf(a[1..] + "\n" + b)
    ensures CollapseCrlf(WithoutReturn(a)) == [a[0]] + CollapseCrlf(WithoutReturn(a[1..]))
  {
    hide CollapseCrlf;
    assert a + "\n" + b == [a[0]] + (a[1..] + "\n" + b);
    CollapseChar(a[0], a[1..] + "\n" + b);
    assert WithoutReturn(a) == [a[0]] + WithoutReturn(a[1..]);
    CollapseChar(a[0], WithoutReturn(a[1..]));
  }

  lemma {:induction false} OneLineIsKept(text: string)
    requires '\n' !in text
    ensures CollapseCrlf(text) == text
  {
    if text != "" {
      assert text == [text[0]] + text[1..];
      OneLineIsKept(text[1..]);
      if |text| >= 2 { assert text[1] in text; }
    }
  }

  /** A carriage return at the end stays, and everything in front of it collapses as before. */
  lemma {:induction false} CollapseReturn(text: string)
    ensures CollapseCrlf(text + "\r") == CollapseCrlf(text) + "\r"
    decreases |text|
  {
    if text == "" {
      assert "" + "\r" == "\r" && CollapseCrlf("\r") == "\r";
    } else if |text| >= 2 && text[0] == '\r' && text[1] == '\n' {
      assert (text + "\r")[2..] == text[2..] + "\r";
      CollapseReturn(text[2..]);
    } else {
      assert (text + "\r")[1..] == text[1..] + "\r";
      CollapseReturn(text[1..]);
    }
  }

  lemma {:induction false} TrimWithoutReturn(text: string)
    ensures Trim(CollapseCrlf(WithoutReturn(text)), IsBreak()) == Trim(CollapseCrlf(text), IsBreak())
  {
    hide CollapseCrlf, Trim;
    var front := WithoutReturn(text);
    if front != text {
      assert text == front + "\r";
      CollapseReturn(front);
      ReturnIsBreak("\r");
      TrimAround("", CollapseCrlf(front), "\r", IsBreak());
      assert "" + CollapseCrlf(front) == CollapseCrlf(front);
    }
  }

  lemma {:induction false} CollapseEnds(text: string)
    ensures text == "" <==> CollapseCrlf(text) == ""
    ensures text != "" ==> CollapseCrlf(text)[|CollapseCrlf(text)| - 1] == text[|text| - 1]
    ensures text != "" && text[0] != '\r' ==> CollapseCrlf(text)[0] == text[0]
    decreases |text|
  {
    if text == "" {
    } else if |text| >= 2 && text[0] == '\r' && text[1] == '\n' {
      CollapseEnds(text[2..]);
    } else {
      CollapseEnds(text[1..]);
    }
  }

  lemma {:induction false} CollapseStaysTrimmed(text: string)
    requires Trimmed(text)
    ensures Trimmed(CollapseCrlf(text))
  {
    CollapseEnds(text);
    hide CollapseCrlf;
  }

  lemma {:induction false} SplitConcat(a: string, b: string)
    ensures Split(a + "\n" + b) == Split(a) + Split(b)
  {
    var whole := a + "\n" + b;
    if a == "" {
      assert whole[1..] == b;
    } else {
      assert whole[1..] == a[1..] + "\n" + b && whole[0] == a[0];
      SplitConcat(a[1..], b);
    }
  }

  // ----- the lines of a heredoc

  /** The closing line: its word between white space. */
  predicate ClosingLine(chars: Chars, left: string, word: string, right: string) {
    && (word == "." || word == "EOF" || word == "PATCH") && All(left, chars.isSpace) && All(right, chars.isSpace)
    && NoBreaks(left) && NoBreaks(right)
  }

  lemma {:induction false} ClosingWord(chars: Chars, word: string)
    requires Unicode(chars) && word in EndWords()
    ensures word != "" && word != FENCE && NoBreaks(word) && Trim(word, chars.isSpace) == word
  {
    assert word[0] in word && word[|word| - 1] in word && word[0..] == word;
    assert NoBreaks(word) by { EndWordsHaveNoBreaks(word); }
  }

  lemma {:induction false} EndWordsHaveNoBreaks(word: string)
    requires word in EndWords()
    ensures NoBreaks(word) && word != "" && word != FENCE
  {
  }

  lemma {:induction false} ClosingLineIs(chars: Chars, left: string, word: string, right: string)
    requires Unicode(chars) && ClosingLine(chars, left, word, right)
    ensures var last := left + word + right;
            && last != "" && '\n' !in last && '\r' !in last && Trim(last, chars.isSpace) == word && word != FENCE
            && !IsBreak()(last[|last| - 1])
  {
    ClosesInEndWord(chars, left, word, right);
    ClosingWord(chars, word);
    TrimAround(left, word, right, chars.isSpace);
    var last := left + word + right;
    hide Trim, EndWords, Unicode;
    assert last[|last| - 1] in last;
  }

  lemma {:induction false} FenceStarts(text: string)
    requires StartsWith(text, FENCE)
    ensures text[0] == '`'
  {
    assert text[..3][0] == text[0];
  }

  lemma {:induction false} HeredocOpens(chars: Chars, tag: string)
    requires !chars.isSpace('<')
    ensures var opening := Trim(HEREDOC + tag, chars.isSpace);
            StartsWith(opening, HEREDOC) && !StartsWith(opening, FENCE)
  {
    var first := HEREDOC + tag;
    assert first[0] == '<' && first[1] == '<' && first[0..] == first;
    TrimEndKeeps(first, chars.isSpace);
    var opening := Trim(first, chars.isSpace);
    assert opening[..2] == HEREDOC;
    if StartsWith(opening, FENCE) { FenceStarts(opening); }
  }

  lemma {:induction false} TrimEndKeeps(text: string, p: char -> bool)
    requires |text| >= 2 && !p(text[1])
    ensures |TrimEnd(text, p)| >= 2 && TrimEnd(text, p)[0] == text[0] && TrimEnd(text, p)[1] == text[1]
  {
    if p(text[|text| - 1]) { TrimEndKeeps(text[..|text| - 1], p); }
  }

  lemma {:induction false} HeredocLines(chars: Chars, first: string, lines: seq<string>, last: string)
    requires StartsWith(Trim(first, chars.isSpace), HEREDOC) && !StartsWith(Trim(first, chars.isSpace), FENCE)
    requires Trim(last, chars.isSpace) in EndWords() && Trim(last, chars.isSpace) != FENCE
    ensures Unwrapped(chars, [first] + lines + [last]) == lines
  {
    hide Trim, StartsWith, EndWords;
    var all := [first] + lines + [last];
    assert all[0] == first && all[|all| - 1] == last && all[1..] == lines + [last];
    assert (lines + [last])[|lines|] == last && (lines + [last])[..|lines|] == lines;
    assert !Opens(chars, all, FENCE) && !EndsAs(chars, all, {FENCE}) && Opens(chars, all, HEREDOC);
    assert EndsAs(chars, lines + [last], EndWords());
  }

  lemma {:induction false} StrippedLines(chars: Chars, text: string, lines: seq<string>)
    requires Trimmed(text) && StartsWith(text, HEREDOC) && !StartsWith(text, FENCE)
    requires lines != [] && Unwrapped(chars, Split(CollapseCrlf(text))) == lines
    ensures Stripped(chars, text) == Trim(Join(lines), IsBreak())
  {
    TrimKeeps(text);
    hide Trim, Unwrapped, Split, CollapseCrlf, StartsWith, Join;
  }

  lemma {:induction false} HeredocStarts(tail: string)
    requires tail != "" && !IsBreak()(tail[|tail| - 1])
    ensures var text := HEREDOC + tail;
            Trimmed(text) && StartsWith(text, HEREDOC) && !StartsWith(text, FENCE)
  {
    var text := HEREDOC + tail;
    assert text[0] == '<' && text[..2] == HEREDOC && text[|text| - 1] == tail[|tail| - 1];
    if StartsWith(text, FENCE) { FenceStarts(text); }
  }

  lemma {:induction false} OpeningLine(tag: string)
    requires '\n' !in tag
    ensures CollapseCrlf(WithoutReturn(HEREDOC + tag)) == HEREDOC + WithoutReturn(tag)
    ensures '\n' !in HEREDOC + WithoutReturn(tag)
  {
    assert WithoutReturn(HEREDOC + tag) == HEREDOC + WithoutReturn(tag);
    assert forall c | c in HEREDOC :: c == '<';
    OneLineIsKept(HEREDOC + WithoutReturn(tag));
  }

  /** The lines of the collapsed text: the opening, the collapsed body, the closing line. */
  lemma {:induction false} HeredocSplits(tag: string, body: string, last: string)
    requires '\n' !in tag && '\n' !in last
    ensures Split(CollapseCrlf(HEREDOC + tag + "\n" + body + "\n" + last))
         == [HEREDOC + WithoutReturn(tag)] + Split(CollapseCrlf(WithoutReturn(body))) + [last]
  {
    hide *;
    var first, inner := HEREDOC + WithoutReturn(tag), CollapseCrlf(WithoutReturn(body));
    assert HEREDOC + tag + "\n" + body + "\n" + last == (HEREDOC + tag) + "\n" + (body + "\n" + last);
    CollapseLine(HEREDOC + tag, body + "\n" + last);
    OpeningLine(tag);
    CollapseLine(body, last);
    OneLineIsKept(last);
    SplitConcat(first, inner + "\n" + last);
    SplitConcat(inner, last);
    SplitSingle(first);
    SplitSingle(last);
  }

  /** What a heredoc is read as, whatever stands in it: the body with its newlines collapsed, without line
      ends around it. */
  lemma {:induction false} HeredocIs(chars: Chars, lead: string, tag: string, body: string, left: string, word: string,
                                     right: string, trail: string)
    requires Unicode(chars) && '\n' !in tag && ClosingLine(chars, left, word, right)
    requires All(lead, IsBreak()) && All(trail, IsBreak())
    ensures Stripped(chars, lead + (HEREDOC + tag + "\n" + body + "\n" + (left + word + right)) + trail)
         == Trim(CollapseCrlf(body), IsBreak())
  {
    hide *;
    var last := left + word + right;
    var tail := tag + "\n" + body + "\n" + last;
    var text := HEREDOC + tag + "\n" + body + "\n" + last;
    var lines := Split(CollapseCrlf(WithoutReturn(body)));
    BreaksAroundAreIgnored(chars, lead, text, trail);
    ClosingLineIs(chars, left, word, right);
    assert text == HEREDOC + tail && tail[|tail| - 1] == last[|last| - 1];
    HeredocStarts(tail);
    HeredocSplits(tag, body, last);
    ClosesInEndWord(chars, left, word, right);
    HeredocOpens(chars, WithoutReturn(tag)) by { AngleIsVisible(chars); }
    HeredocLines(chars, HEREDOC + WithoutReturn(tag), lines, last);
    StrippedLines(chars, text, lines);
    JoinOfSplit(CollapseCrlf(WithoutReturn(body)));
    TrimWithoutReturn(body);
  }

  lemma {:induction false} ClosesInEndWord(chars: Chars, left: string, word: string, right: string)
    requires ClosingLine(chars, left, word, right)
    ensures word in EndWords()
  {
  }

  lemma {:induction false} AngleIsVisible(chars: Chars)
    requires Unicode(chars)
    ensures !chars.isSpace('<')
  {
  }

  /** A body between heredoc lines is read with its newlines collapsed, and otherwise as it is; so it is
      read as itself if and only if it has no carriage return in front of a line end. */
  lemma {:induction false} HeredocsCollapse(chars: Chars, lead: string, tag: string, body: string, left: string,
                                            word: string, right: string, trail: string)
    requires Unicode(chars) && '\n' !in tag && ClosingLine(chars, left, word, right)
    requires All(lead, IsBreak()) && All(trail, IsBreak()) && Trimmed(body)
    ensures var r := Stripped(chars, lead + (HEREDOC + tag + "\n" + body + "\n" + (left + word + right)) + trail);
            r == CollapseCrlf(body) && (r == body <==> !HasCrlf(body))
  {
    hide *;
    HeredocIs(chars, lead, tag, body, left, word, right, trail);
    CollapseStaysTrimmed(body);
    TrimKeeps(CollapseCrlf(body));
    CollapseChanges(body);
  }

  lemma {:induction false} CollapseChanges(text: string)
    ensures CollapseCrlf(text) == text <==> !HasCrlf(text)
    ensures |CollapseCrlf(text)| <= |text|
    decreases |text|
  {
    if text == "" {
    } else if |text| >= 2 && text[0] == '\r' && text[1] == '\n' {
      CollapseChanges(text[2..]);
    } else {
      CollapseChanges(text[1..]);
      assert text == [text[0]] + text[1..];
      assert |CollapseCrlf(text[1..])| <= |text[1..]|;
      assert ([text[0]] + CollapseCrlf(text[1..]))[1..] == CollapseCrlf(text[1..]);
    }
  }
}
