/** How a suggestion's numeric score becomes a display level: two fixed
    thresholds. */
module Severity {
  import opened Schemas

  const ErrorThreshold: real := 0.70
  const WarningThreshold: real := 0.40

  /** `score_to_severity_level`. */
  function ScoreToSeverityLevel(score: real): (l: SeverityLevel)
    ensures l == Error <==> score >= ErrorThreshold
    ensures l == Warning <==> WarningThreshold <= score < ErrorThreshold
    ensures l == Info <==> score < WarningThreshold
  {
    if score >= ErrorThreshold then Error
    else if score >= WarningThreshold then Warning
    else Info
  }

  /** The order INFO < WARNING < ERROR. */
  function Rank(l: SeverityLevel): nat {
    match l
    case Info => 0
    case Warning => 1
    case Error => 2
  }

  /** A higher score never yields a lower level. */
  lemma ScoreToSeverityLevelMonotone(a: real, b: real)
    requires a <= b
    ensures Rank(ScoreToSeverityLevel(a)) <= Rank(ScoreToSeverityLevel(b))
  {
  }

  /** The examples the function documents. */
  lemma ScoreToSeverityLevelExamples()
    ensures ScoreToSeverityLevel(0.85) == Error
    ensures ScoreToSeverityLevel(0.55) == Warning
    ensures ScoreToSeverityLevel(0.25) == Info
  {
  }
}
