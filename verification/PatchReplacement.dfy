/** Exactly which replacements are accepted, what they give, and how the others are refused. */
module PatchReplacement {
  import opened Results
  import opened Sequences
  import opened PatchText
  import opened PatchHunks
  import opened PatchApply
  import opened PatchLaws

  /** The fragment stands at `i`, not in front of it, and nowhere behind its end. */
  ghost predicate StandsOnceAt(text: string, fragment: string, i: nat) {
    OccursAt(text, fragment, i) && forall j: nat | OccursAt(text, fragment, j) :: i <= j < i + |fragment|
  }

  ghost predicate StandsOnce(text: string, fragment: string) { exists i: nat :: StandsOnceAt(text, fragment, i) }

  lemma {:induction false} AbsentIsUncounted(text: string, fragment: string)
    requires fragment != "" && forall j: nat :: !OccursAt(text, fragment, j)
    ensures Occurrences(text, fragment) == 0
    decreases |text|
  {
    if text != "" {
      StartsIs(text, fragment);
      forall j: nat ensures !OccursAt(text[1..], fragment, j) { ShiftedOccurrence(text, fragment, j); }
      AbsentIsUncounted(text[1..], fragment);
    }
  }

  lemma {:induction false} StartsIs(text: string, fragment: string)
    ensures StartsWith(text, fragment) <==> OccursAt(text, fragment, 0)
  {
    if |fragment| <= |text| { assert text[0..|fragment|] == text[..|fragment|]; }
  }

  lemma {:induction false} OnceIsCounted(text: string, fragment: string, i: nat)
    requires fragment != "" && StandsOnceAt(text, fragment, i)
    ensures Occurrences(text, fragment) == 1
    decreases |text|
  {
    hide OccursAt;
    StartsIs(text, fragment);
    OccursInside(text, fragment, i);
    if OccursAt(text, fragment, 0) {
      var rest := text[|fragment|..];
      forall j: nat ensures !OccursAt(rest, fragment, j) { OccursBehind(text, fragment, |fragment|, j + |fragment|); }
      AbsentIsUncounted(rest, fragment);
    } else {
      forall j: nat ensures OccursAt(text[1..], fragment, j) <==> OccursAt(text, fragment, j + 1) {
        ShiftedOccurrence(text, fragment, j);
      }
      OnceIsCounted(text[1..], fragment, i - 1);
    }
  }

  lemma {:induction false} OccursInside(text: string, fragment: string, i: nat)
    requires OccursAt(text, fragment, i)
    ensures i + |fragment| <= |text|
  {
  }

  /** What replacing the fragment at `i` gives. */
  predicate Replaces(text: string, fragment: string, substitute: string, i: nat, result: string) {
    i + |fragment| <= |text| && result == text[..i] + substitute + text[i + |fragment|..]
  }

  lemma {:induction false} CountedIsOnce(text: string, fragment: string, substitute: string, result: string)
    requires fragment != ""
    ensures Occurrences(text, fragment) == 1 <==> StandsOnce(text, fragment)
    ensures Occurrences(text, fragment) == 1 ==>
              (result == ReplaceFirst(text, fragment, substitute)
               <==> exists i: nat :: StandsOnceAt(text, fragment, i) && Replaces(text, fragment, substitute, i, result))
  {
    hide OccursAt, Occurrences, ReplaceFirst;
    forall i: nat | StandsOnceAt(text, fragment, i) ensures Occurrences(text, fragment) == 1 {
      OnceIsCounted(text, fragment, i);
    }
    if Occurrences(text, fragment) == 1 {
      var i := CountedOnce(text, fragment, substitute);
      OccursInside(text, fragment, i);
      assert StandsOnceAt(text, fragment, i);
      forall k: nat | StandsOnceAt(text, fragment, k) ensures k == i {}
    }
  }

  /** A replacement is accepted exactly when neither text has a NUL, the fragment is not empty and stands in the
      text once, except perhaps in overlap with its first place, and both the text and the result are readable;
      the result is the text with the fragment replaced at that place. Otherwise it is stale when it is the
      fragment that is missing or repeated, and invalid for any other reason. */
  lemma {:induction false} ReplacementsAreAccepted(text: string, fragment: string, substitute: string, result: string)
    ensures var r := Applied(text, Replacement(fragment, substitute));
            var found := fragment != "" && StandsOnce(text, fragment);
            && (r == Ok(result)
                <==> && '\0' !in text && '\0' !in substitute && found && Readable(text) && Readable(result)
                     && exists i: nat ::
                       StandsOnceAt(text, fragment, i) && Replaces(text, fragment, substitute, i, result))
            && (r == Err(StalePreimage) <==> '\0' !in text && '\0' !in substitute && !found)
  {
    hide StandsOnceAt, Replaces, StandsOnce, Readable, Occurrences, ReplaceFirst;
    if fragment != "" {
      CountedIsOnce(text, fragment, substitute, result);
      if Occurrences(text, fragment) == 1 {
        CountedIsOnce(text, fragment, substitute, ReplaceFirst(text, fragment, substitute));
      }
    }
  }
}
