/** The request, response and suggestion records exchanged by the review
    pipeline, with the field bounds and defaults their validating
    constructors enforce. Scores are real numbers; a validation error is a
    `Failure`. */
module Schemas {
  import opened Wrappers

  // ---------------------------------------------------------------------
  // Enumerations
  // ---------------------------------------------------------------------

  /** The kinds of suggestion a review can produce. */
  datatype SuggestionType = Clarity | Rigor | Ethics | Style | Grammar

  /** The string value each suggestion type is serialised as. */
  function TypeValue(t: SuggestionType): string {
    match t
    case Clarity => "clarity"
    case Rigor => "rigor"
    case Ethics => "ethics"
    case Style => "style"
    case Grammar => "grammar"
  }

  /** `SuggestionType(s)`: the member whose value is `s`, if any. */
  function ParseSuggestionType(s: string): (r: Option<SuggestionType>)
    ensures r.Some? <==> s in {"clarity", "rigor", "ethics", "style", "grammar"}
    ensures r.Some? ==> TypeValue(r.value) == s
  {
    if s == "clarity" then Some(Clarity)
    else if s == "rigor" then Some(Rigor)
    else if s == "ethics" then Some(Ethics)
    else if s == "style" then Some(Style)
    else if s == "grammar" then Some(Grammar)
    else None
  }

  /** Every suggestion type is recovered from its value, and no two types
      share one. */
  lemma SuggestionTypeRoundTrip(t: SuggestionType)
    ensures ParseSuggestionType(TypeValue(t)) == Some(t)
  {
  }

  /** The three display levels of a suggestion. */
  datatype SeverityLevel = Info | Warning | Error

  function LevelValue(l: SeverityLevel): string {
    match l
    case Info => "info"
    case Warning => "warning"
    case Error => "error"
  }

  /** `SeverityLevel(s)`: the member whose value is `s`, if any. */
  function ParseSeverityLevel(s: string): (r: Option<SeverityLevel>)
    ensures r.Some? <==> s in {"info", "warning", "error"}
    ensures r.Some? ==> LevelValue(r.value) == s
  {
    if s == "info" then Some(Info)
    else if s == "warning" then Some(Warning)
    else if s == "error" then Some(Error)
    else None
  }

  lemma SeverityLevelRoundTrip(l: SeverityLevel)
    ensures ParseSeverityLevel(LevelValue(l)) == Some(l)
  {
  }

  // ---------------------------------------------------------------------
  // Records
  // ---------------------------------------------------------------------

  predicate InUnitInterval(x: real) {
    0.0 <= x <= 1.0
  }

  /** A section of a LaTeX document. */
  datatype Section = Section(
    title: string,
    content: string,
    sectionType: string,
    lineStart: int,
    lineEnd: int)

  /** One suggestion as the language model returns it. */
  datatype StructuredSuggestion = StructuredSuggestion(
    issue: string,
    line: int,
    severityScore: real,
    explanation: string,
    suggestedFix: string)

  /** One suggestion after the orchestrator kept or merged it. */
  datatype OrchestratedSuggestion = OrchestratedSuggestion(
    issue: string,
    line: int,
    severityScore: real,
    explanation: string,
    suggestedFix: string,
    agentSources: seq<string>,
    orchestratorNote: Option<string>)

  /** One suggestion as the API reports it. */
  datatype SuggestionItem = SuggestionItem(
    text: string,
    line: int,
    severity: SeverityLevel,
    severityScore: Option<real>,
    explanation: Option<string>,
    suggestedFix: Option<string>)

  /** The suggestions of one type for one section. */
  datatype SuggestionGroup = SuggestionGroup(
    groupType: SuggestionType,
    count: int,
    items: seq<SuggestionItem>)

  /** The grouped suggestions for one section. */
  datatype SectionSuggestions = SectionSuggestions(
    section: string,
    line: int,
    sectionType: string,
    suggestions: seq<SuggestionGroup>)

  /** A review request; `agents` is None when the client sent null. */
  datatype ReviewRequest = ReviewRequest(
    content: string,
    sectionsToReview: Option<seq<string>>,
    agents: Option<seq<string>>)

  datatype ReviewResponse = ReviewResponse(
    success: bool,
    sections: seq<SectionSuggestions>,
    totalSuggestions: int,
    processingTime: real,
    error: Option<string>)

  /** How a field with a default arrived in the input: left out, sent as
      null, or sent with a value. The default applies only to a field left
      out; null is a value of its own, accepted only by `Optional` fields. */
  datatype Field<T> = Omitted | Null | Given(value: T)

  // ---------------------------------------------------------------------
  // Validating constructors
  // ---------------------------------------------------------------------

  /** `StructuredSuggestion(...)`: the score must lie in [0, 1]. */
  function NewStructuredSuggestion(issue: string, line: int, score: real, explanation: string, fix: string)
    : (r: Result<StructuredSuggestion>)
    ensures r.Success? <==> InUnitInterval(score)
    ensures r.Success? ==> r.value == StructuredSuggestion(issue, line, score, explanation, fix)
  {
    if InUnitInterval(score) then Success(StructuredSuggestion(issue, line, score, explanation, fix))
    else Failure("severity_score must be between 0.0 and 1.0")
  }

  /** `OrchestratedSuggestion(...)`: the score must lie in [0, 1]; the note
      defaults to None. */
  function NewOrchestratedSuggestion(
    issue: string, line: int, score: real, explanation: string, fix: string,
    sources: seq<string>, note: Field<string>)
    : (r: Result<OrchestratedSuggestion>)
    ensures r.Success? <==> InUnitInterval(score)
    ensures r.Success? ==> r.value.severityScore == score && r.value.agentSources == sources
    ensures r.Success? ==> (r.value.orchestratorNote.Some? <==> note.Given?)
    ensures r.Success? ==> r.value == OrchestratedSuggestion(issue, line, score, explanation, fix, sources, OptionOf(note))
  {
    if !InUnitInterval(score) then Failure("severity_score must be between 0.0 and 1.0")
    else
      var n := if note.Given? then Some(note.value) else None;
      Success(OrchestratedSuggestion(issue, line, score, explanation, fix, sources, n))
  }

  /** `SuggestionItem(...)`: severity defaults to INFO when left out and
      may not be null; the optional score, when present, must lie in
      [0, 1]; the other optional fields default to None. */
  function NewSuggestionItem(
    text: string, line: int, severity: Field<SeverityLevel>, score: Field<real>,
    explanation: Field<string>, fix: Field<string>)
    : (r: Result<SuggestionItem>)
    ensures r.Success? <==> !severity.Null? && !(score.Given? && !InUnitInterval(score.value))
    ensures r.Success? ==> ValidItem(r.value)
    ensures r.Success? && severity.Omitted? ==> r.value.severity == Info
    ensures r.Success? && severity.Given? ==> r.value.severity == severity.value
    ensures r.Success? && !score.Given? ==> r.value.severityScore == None
    ensures r.Success? ==> r.value.text == text && r.value.line == line
    ensures r.Success? ==>
      r.value.severityScore == OptionOf(score) && r.value.explanation == OptionOf(explanation) && r.value.suggestedFix == OptionOf(fix)
  {
    if severity.Null? then
      Failure("severity: input should be 'info', 'warning' or 'error'")
    else if score.Given? && !InUnitInterval(score.value) then
      Failure("severity_score must be between 0.0 and 1.0")
    else
      Success(SuggestionItem(
        text, line,
        if severity.Given? then severity.value else Info,
        OptionOf(score), OptionOf(explanation), OptionOf(fix)))
  }

  function OptionOf<T>(f: Field<T>): Option<T> {
    if f.Given? then Some(f.value) else None
  }

  /** The bound a stored `SuggestionItem` satisfies. */
  predicate ValidItem(it: SuggestionItem) {
    it.severityScore.Some? ==> InUnitInterval(it.severityScore.value)
  }

  /** The agent names a review request may list. */
  predicate IsAgentLiteral(a: string) {
    a == "clarity" || a == "rigor"
  }

  const DefaultAgents: seq<string> := ["clarity", "rigor"]

  /** `ReviewRequest(...)`: `agents` defaults to both agents when omitted,
      may be null, and otherwise admits only "clarity" and "rigor". */
  function NewReviewRequest(content: string, sections: Field<seq<string>>, agents: Field<seq<string>>)
    : (r: Result<ReviewRequest>)
    ensures r.Success? <==> (agents.Given? ==> forall i :: 0 <= i < |agents.value| ==> IsAgentLiteral(agents.value[i]))
    ensures r.Success? && agents.Omitted? ==> r.value.agents == Some(["clarity", "rigor"])
    ensures r.Success? && agents.Null? ==> r.value.agents == None
    ensures r.Success? && agents.Given? ==> r.value.agents == Some(agents.value)
    ensures r.Success? ==> r.value.content == content && r.value.sectionsToReview == OptionOf(sections)
  {
    if agents.Given? && exists i :: 0 <= i < |agents.value| && !IsAgentLiteral(agents.value[i]) then
      Failure("agents: input should be 'clarity' or 'rigor'")
    else
      var a := match agents
        case Omitted => Some(DefaultAgents)
        case Null => None
        case Given(v) => Some(v);
      Success(ReviewRequest(content, OptionOf(sections), a))
  }

  /** `ReviewResponse(...)`: `sections` defaults to empty and the total to
      0 when left out, and neither may be null; the error defaults to None. */
  function NewReviewResponse(
    success: bool, processingTime: real, sections: Field<seq<SectionSuggestions>>,
    total: Field<int>, error: Field<string>)
    : (r: Result<ReviewResponse>)
    ensures r.Success? <==> !sections.Null? && !total.Null?
    ensures r.Success? && sections.Omitted? ==> r.value.sections == []
    ensures r.Success? && sections.Given? ==> r.value.sections == sections.value
    ensures r.Success? && total.Omitted? ==> r.value.totalSuggestions == 0
    ensures r.Success? && total.Given? ==> r.value.totalSuggestions == total.value
    ensures r.Success? ==> r.value.error == OptionOf(error)
    ensures r.Success? ==> r.value.success == success && r.value.processingTime == processingTime
  {
    if sections.Null? then Failure("sections: input should be a valid list")
    else if total.Null? then Failure("total_suggestions: input should be a valid integer")
    else
      Success(ReviewResponse(
        success,
        if sections.Given? then sections.value else [],
        if total.Given? then total.value else 0,
        processingTime,
        OptionOf(error)))
  }

  /** An agent response's suggestions: no suggestions when left out, and
      null refused. */
  function NewAgentSuggestionResponse(suggestions: Field<seq<StructuredSuggestion>>): (r: Result<seq<StructuredSuggestion>>)
    ensures r.Success? <==> !suggestions.Null?
    ensures r.Success? && suggestions.Omitted? ==> r.value == []
    ensures r.Success? && suggestions.Given? ==> r.value == suggestions.value
  {
    match suggestions
    case Omitted => Success([])
    case Null => Failure("suggestions: input should be a valid list")
    case Given(v) => Success(v)
  }

  /** An orchestrator response's suggestions, by the same rule. */
  function NewOrchestratorSectionResponse(suggestions: Field<seq<OrchestratedSuggestion>>)
    : (r: Result<seq<OrchestratedSuggestion>>)
    ensures r.Success? <==> !suggestions.Null?
    ensures r.Success? && suggestions.Omitted? ==> r.value == []
    ensures r.Success? && suggestions.Given? ==> r.value == suggestions.value
  {
    if suggestions.Null? then Failure("suggestions: input should be a valid list")
    else if suggestions.Given? then Success(suggestions.value)
    else Success([])
  }
}
