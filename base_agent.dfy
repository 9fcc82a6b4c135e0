/** What a review agent does with the language model's answer: one
    suggestion item per structured suggestion, levelled by keywords and
    pinned to the section's first line. The model call itself is an input:
    `Failure` stands for any exception raised while reviewing. */
module BaseAgent {
  import opened Wrappers
  import opened Text
  import opened Schemas

  const ErrorKeywords: seq<string> := ["must", "required", "missing", "incorrect", "error", "critical"]
  const WarningKeywords: seq<string> := ["should", "recommend", "unclear", "ambiguous", "consider revising"]

  /** `_determine_severity`: ERROR when the lowercased text holds an error
      keyword, else WARNING when it holds a warning keyword, else INFO. */
  function DetermineSeverity(text: string): (l: SeverityLevel)
    ensures l == Error <==> exists k :: k in ErrorKeywords && Contains(Lower(text), k)
    ensures l == Warning <==>
      (!exists k :: k in ErrorKeywords && Contains(Lower(text), k)) &&
      (exists k :: k in WarningKeywords && Contains(Lower(text), k))
    ensures l == Info <==>
      (!exists k :: k in ErrorKeywords && Contains(Lower(text), k)) &&
      (!exists k :: k in WarningKeywords && Contains(Lower(text), k))
  {
    var lower := Lower(text);
    if AnyContains(lower, ErrorKeywords) then Error
    else if AnyContains(lower, WarningKeywords) then Warning
    else Info
  }

  /** Error keywords win over warning keywords. */
  lemma {:induction false} ErrorKeywordWins(text: string, a: string, b: string)
    requires a in ErrorKeywords && b in WarningKeywords
    requires Contains(Lower(text), a) && Contains(Lower(text), b)
    ensures DetermineSeverity(text) == Error
  {
  }

  /** The level depends on the text only up to ASCII case. */
  lemma DetermineSeverityIgnoresCase(text: string)
    ensures DetermineSeverity(Lower(text)) == DetermineSeverity(text)
  {
    LowerIdempotent(text);
  }

  /** For instance, a text saying that a proof is missing is an error,
      whatever the case of the keyword. */
  lemma DetermineSeverityExample()
    ensures DetermineSeverity("Proof Missing") == Error
  {
    var lower := Lower("Proof Missing");
    assert lower == "proof missing";
    assert OccursAt(lower, "missing", 6);
    assert "missing" == ErrorKeywords[2];
  }

  /** The item one structured suggestion becomes. */
  function ToItem(section: Section, s: StructuredSuggestion): (it: SuggestionItem)
    ensures it.text == s.issue && it.line == section.lineStart
    ensures it.severity == DetermineSeverity(s.issue)
    ensures it.severityScore == None
    ensures it.explanation == Some(s.explanation) && it.suggestedFix == Some(s.suggestedFix)
    ensures ValidItem(it)
  {
    SuggestionItem(s.issue, section.lineStart, DetermineSeverity(s.issue), None, Some(s.explanation), Some(s.suggestedFix))
  }

  /** The conversion loop of `review_section`. */
  method ConvertSuggestions(section: Section, response: seq<StructuredSuggestion>)
    returns (items: seq<SuggestionItem>)
    ensures |items| == |response|
    ensures forall i :: 0 <= i < |response| ==> items[i] == ToItem(section, response[i])
    ensures forall i :: 0 <= i < |items| ==> items[i].line == section.lineStart && ValidItem(items[i])
  {
    items := [];
    var i := 0;
    while i < |response|
      invariant 0 <= i <= |response|
      invariant |items| == i
      invariant forall j :: 0 <= j < i ==> items[j] == ToItem(section, response[j])
    {
      var s := response[i];
      var item := SuggestionItem(s.issue, section.lineStart, DetermineSeverity(s.issue), None, Some(s.explanation), Some(s.suggestedFix));
      assert item == ToItem(section, response[i]);
      items := items + [item];
      i := i + 1;
    }
  }

  /** `review_section`: the converted suggestions, or no suggestions at all
      when the model call failed. */
  method ReviewSection(section: Section, response: Result<seq<StructuredSuggestion>>)
    returns (items: seq<SuggestionItem>)
    ensures response.Failure? ==> items == []
    ensures response.Success? ==>
      |items| == |response.value| &&
      forall i :: 0 <= i < |items| ==> items[i] == ToItem(section, response.value[i])
  {
    if response.Failure? {
      return [];
    }
    items := ConvertSuggestions(section, response.value);
  }
}
