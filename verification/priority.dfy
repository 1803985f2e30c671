/** The keyword triage of a crisis alert (`determinePriority` in the admin
    crisis-alert route): the first matching keyword class wins. */
module Priority {
  import opened Common
  import opened Text

  datatype Priority = Low | Medium | High | Critical

  /** The wire name of a priority. */
  function PriorityName(p: Priority): string {
    match p
    case Low => "low"
    case Medium => "medium"
    case High => "high"
    case Critical => "critical"
  }

  /** Position of a priority in urgency order. */
  function Rank(p: Priority): nat {
    match p
    case Low => 0
    case Medium => 1
    case High => 2
    case Critical => 3
  }

  const CRITICAL_WORDS: seq<string> := ["suicide", "self-harm", "emergency"]
  const HIGH_PRIORITY_AREAS: seq<string> := ["emergency", "medical", "safety", "security", "suicide", "self-harm"]
  const MEDIUM_PRIORITY_AREAS: seq<string> := ["dormitory", "residence", "bathroom", "parking"]

  /** `words.some(w => content.includes(w))`. */
  predicate ContainsAny(content: string, words: seq<string>) {
    exists i :: 0 <= i < |words| && Contains(content, words[i])
  }

  /** The text that is searched: area and description joined by one blank, lower-cased;
      a missing description counts as empty. */
  function Content(area: string, description: Option<string>): string {
    Lower(area + " " + description.GetOr(""))
  }

  /** The classification of already lower-cased content. */
  function Classify(content: string): (r: Priority)
    ensures r == Critical <==> Contains(content, "suicide") || Contains(content, "self-harm") || Contains(content, "emergency")
    ensures r == High <==> r != Critical && (Contains(content, "medical") || Contains(content, "safety") || Contains(content, "security"))
    ensures r == Medium <==> Rank(r) < 2 && (Contains(content, "dormitory") || Contains(content, "residence")
                                              || Contains(content, "bathroom") || Contains(content, "parking"))
  {
    CriticalWords(content);
    HighAreas(content);
    MediumAreas(content);
    if ContainsAny(content, CRITICAL_WORDS) then Critical
    else if ContainsAny(content, HIGH_PRIORITY_AREAS) then High
    else if ContainsAny(content, MEDIUM_PRIORITY_AREAS) then Medium
    else Low
  }

  function DeterminePriority(area: string, description: Option<string>): (r: Priority)
    ensures var c := Content(area, description);
      && (r == Critical <==> Contains(c, "suicide") || Contains(c, "self-harm") || Contains(c, "emergency"))
      && (r == High <==> r != Critical && (Contains(c, "medical") || Contains(c, "safety") || Contains(c, "security")))
      && (r == Low <==> !Contains(c, "suicide") && !Contains(c, "self-harm") && !Contains(c, "emergency")
                        && !Contains(c, "medical") && !Contains(c, "safety") && !Contains(c, "security")
                        && !Contains(c, "dormitory") && !Contains(c, "residence")
                        && !Contains(c, "bathroom") && !Contains(c, "parking"))
  {
    Classify(Content(area, description))
  }

  lemma CriticalWords(c: string)
    ensures ContainsAny(c, CRITICAL_WORDS) <==> Contains(c, "suicide") || Contains(c, "self-harm") || Contains(c, "emergency")
  {
    if ContainsAny(c, CRITICAL_WORDS) {
      var i :| 0 <= i < |CRITICAL_WORDS| && Contains(c, CRITICAL_WORDS[i]);
      assert i == 0 || i == 1 || i == 2;
    }
    if Contains(c, "suicide") { assert Contains(c, CRITICAL_WORDS[0]); }
    if Contains(c, "self-harm") { assert Contains(c, CRITICAL_WORDS[1]); }
    if Contains(c, "emergency") { assert Contains(c, CRITICAL_WORDS[2]); }
  }

  lemma HighAreas(c: string)
    ensures ContainsAny(c, HIGH_PRIORITY_AREAS) <==>
      Contains(c, "emergency") || Contains(c, "medical") || Contains(c, "safety")
      || Contains(c, "security") || Contains(c, "suicide") || Contains(c, "self-harm")
  {
    if ContainsAny(c, HIGH_PRIORITY_AREAS) {
      var i :| 0 <= i < |HIGH_PRIORITY_AREAS| && Contains(c, HIGH_PRIORITY_AREAS[i]);
      assert i in {0, 1, 2, 3, 4, 5};
    }
    if Contains(c, "emergency") { assert Contains(c, HIGH_PRIORITY_AREAS[0]); }
    if Contains(c, "medical") { assert Contains(c, HIGH_PRIORITY_AREAS[1]); }
    if Contains(c, "safety") { assert Contains(c, HIGH_PRIORITY_AREAS[2]); }
    if Contains(c, "security") { assert Contains(c, HIGH_PRIORITY_AREAS[3]); }
    if Contains(c, "suicide") { assert Contains(c, HIGH_PRIORITY_AREAS[4]); }
    if Contains(c, "self-harm") { assert Contains(c, HIGH_PRIORITY_AREAS[5]); }
  }

  lemma MediumAreas(c: string)
    ensures ContainsAny(c, MEDIUM_PRIORITY_AREAS) <==>
      Contains(c, "dormitory") || Contains(c, "residence") || Contains(c, "bathroom") || Contains(c, "parking")
  {
    if ContainsAny(c, MEDIUM_PRIORITY_AREAS) {
      var i :| 0 <= i < |MEDIUM_PRIORITY_AREAS| && Contains(c, MEDIUM_PRIORITY_AREAS[i]);
      assert i in {0, 1, 2, 3};
    }
    if Contains(c, "dormitory") { assert Contains(c, MEDIUM_PRIORITY_AREAS[0]); }
    if Contains(c, "residence") { assert Contains(c, MEDIUM_PRIORITY_AREAS[1]); }
    if Contains(c, "bathroom") { assert Contains(c, MEDIUM_PRIORITY_AREAS[2]); }
    if Contains(c, "parking") { assert Contains(c, MEDIUM_PRIORITY_AREAS[3]); }
  }

  /** A null description and an empty one are classified alike. */
  lemma NullDescriptionIsEmpty(area: string)
    ensures DeterminePriority(area, None) == DeterminePriority(area, Some(""))
  {
  }

  /** The classification ignores letter case: lower-casing the inputs first
      changes nothing. */
  lemma {:induction false} CaseInsensitive(area: string, description: string)
    ensures DeterminePriority(Lower(area), Some(Lower(description))) == DeterminePriority(area, Some(description))
  {
    assert Lower(" ") == " ";
    LowerConcat(area, " ");
    LowerConcat(area + " ", description);
    LowerConcat(Lower(area), " ");
    LowerConcat(Lower(area) + " ", Lower(description));
    LowerIdempotent(area + " " + description);
    assert Lower(area) + " " + Lower(description) == Lower(area + " " + description);
  }

  /** Appending text can only raise the classification: every keyword found
      before is still found. */
  lemma {:induction false} ClassifyMonotone(c: string, t: string)
    ensures Rank(Classify(c)) <= Rank(Classify(c + t))
  {
    forall w: string ensures Contains(c, w) ==> Contains(c + t, w) {
      ContainsAppend(c, t, w);
    }
  }

  /** More description never lowers an alert's priority. */
  lemma {:induction false} DescriptionOnlyRaises(area: string, description: string, more: string)
    ensures Rank(DeterminePriority(area, Some(description))) <= Rank(DeterminePriority(area, Some(description + more)))
  {
    ContentAppend(area, description, more);
    ClassifyMonotone(Content(area, Some(description)), Lower(more));
  }

  lemma ContentAppend(area: string, description: string, more: string)
    ensures Content(area, Some(description + more)) == Content(area, Some(description)) + Lower(more)
  {
    var x := area + " " + description;
    calc {
      Content(area, Some(description + more));
      Lower(area + " " + (description + more));
      { assert area + " " + (description + more) == x + more; }
      Lower(x + more);
      { LowerConcat(x, more); }
      Lower(x) + Lower(more);
    }
  }

  /** A critical keyword in the area of concern makes the alert critical,
      whatever the description says. */
  lemma {:induction false} CriticalAreaDominates(area: string, description: Option<string>, w: string)
    requires w in CRITICAL_WORDS && Contains(Lower(area), w)
    ensures DeterminePriority(area, description) == Critical
  {
    LowerConcat(area, " " + description.GetOr(""));
    assert area + " " + description.GetOr("") == area + (" " + description.GetOr(""));
    ContainsAppend(Lower(area), Lower(" " + description.GetOr("")), w);
  }
}
