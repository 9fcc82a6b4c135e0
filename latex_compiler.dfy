/** The quick sanity check run on a LaTeX source before compiling it:
    emptiness, the document environment, and balanced `\begin{`/`\end{`
    counts, all on the whitespace-stripped text. */
module LatexCompiler {
  import opened Text

  const BeginDocument: string := "\\begin{document}"
  const EndDocument: string := "\\end{document}"
  const BeginEnv: string := "\\begin{"
  const EndEnv: string := "\\end{"

  /** The problems `validate` can report. */
  datatype Issue = DocumentEmpty | MissingBegin | MissingEnd | Mismatched(begins: nat, ends: nat)

  /** The text each problem is reported with. */
  function Message(i: Issue): string {
    match i
    case DocumentEmpty => "Document is empty"
    case MissingBegin => "Missing \\begin{document}"
    case MissingEnd => "Missing \\end{document}"
    case Mismatched(b, e) =>
      "Mismatched environments: " + IntToString(b) + " \\begin vs " + IntToString(e) + " \\end"
  }

  function Messages(issues: seq<Issue>): (r: seq<string>)
    ensures |r| == |issues| && forall k :: 0 <= k < |issues| ==> r[k] == Message(issues[k])
  {
    seq(|issues|, k requires 0 <= k < |issues| => Message(issues[k]))
  }

  /** The problems `validate` finds in `latex`, in the order it checks. */
  function Issues(latex: string): seq<Issue> {
    var t := Strip(latex);
    IssuesOf(t == "", Contains(t, BeginDocument), Contains(t, EndDocument), Count(t, BeginEnv), Count(t, EndEnv))
  }

  /** The problems for the outcomes of the four checks, in check order. */
  function IssuesOf(empty: bool, hasBegin: bool, hasEnd: bool, begins: nat, ends: nat): seq<Issue> {
    (if empty then [DocumentEmpty] else [])
    + (if !hasBegin then [MissingBegin] else [])
    + (if !hasEnd then [MissingEnd] else [])
    + (if begins != ends then [Mismatched(begins, ends)] else [])
  }

  /** Each problem is listed exactly when its check fails. */
  lemma IssuesOfMeaning(empty: bool, hasBegin: bool, hasEnd: bool, begins: nat, ends: nat)
    ensures DocumentEmpty in IssuesOf(empty, hasBegin, hasEnd, begins, ends) <==> empty
    ensures MissingBegin in IssuesOf(empty, hasBegin, hasEnd, begins, ends) <==> !hasBegin
    ensures MissingEnd in IssuesOf(empty, hasBegin, hasEnd, begins, ends) <==> !hasEnd
    ensures (exists b, e :: Mismatched(b, e) in IssuesOf(empty, hasBegin, hasEnd, begins, ends)) <==> begins != ends
    ensures IssuesOf(empty, hasBegin, hasEnd, begins, ends) == [] <==> !empty && hasBegin && hasEnd && begins == ends
  {
    if begins != ends {
      assert Mismatched(begins, ends) in IssuesOf(empty, hasBegin, hasEnd, begins, ends);
    }
  }

  /** `validate`: the checks run on the stripped source, the issues found,
      and whether there were none. */
  method Validate(latex: string) returns (valid: bool, issues: seq<string>)
    ensures issues == Messages(Issues(latex))
    ensures valid <==> Issues(latex) == []
  {
    var content := Strip(latex);
    var hasBegin := Contains(content, BeginDocument);
    var hasEnd := Contains(content, EndDocument);
    var begins := Count(content, BeginEnv);
    var ends := Count(content, EndEnv);
    var found := AppendIssues(content == "", hasBegin, hasEnd, begins, ends);
    issues := Messages(found);
    valid := |issues| == 0;
  }

  /** The appends of `validate`, one check after the other. */
  method AppendIssues(empty: bool, hasBegin: bool, hasEnd: bool, begins: nat, ends: nat) returns (found: seq<Issue>)
    ensures found == IssuesOf(empty, hasBegin, hasEnd, begins, ends)
  {
    found := [];
    if empty {
      found := found + [DocumentEmpty];
    }
    if !hasBegin {
      found := found + [MissingBegin];
    }
    if !hasEnd {
      found := found + [MissingEnd];
    }
    if begins != ends {
      found := found + [Mismatched(begins, ends)];
    }
  }

  /** Each problem is reported exactly when its check fails, the mismatch
      carries both counts, and a source is valid exactly when every check
      passes. */
  lemma IssuesMeaning(latex: string)
    ensures DocumentEmpty in Issues(latex) <==> AllSpace(latex)
    ensures MissingBegin in Issues(latex) <==> !Contains(Strip(latex), BeginDocument)
    ensures MissingEnd in Issues(latex) <==> !Contains(Strip(latex), EndDocument)
    ensures (exists b, e :: Mismatched(b, e) in Issues(latex)) <==>
      Count(Strip(latex), BeginEnv) != Count(Strip(latex), EndEnv)
    ensures Issues(latex) == [] <==>
      !AllSpace(latex) && Contains(Strip(latex), BeginDocument) && Contains(Strip(latex), EndDocument)
      && Count(Strip(latex), BeginEnv) == Count(Strip(latex), EndEnv)
  {
    var t := Strip(latex);
    IssuesOfMeaning(t == "", Contains(t, BeginDocument), Contains(t, EndDocument), Count(t, BeginEnv), Count(t, EndEnv));
  }

  /** The issues come in check order, each at most once. */
  lemma IssuesOrdered(latex: string)
    ensures |Issues(latex)| <= 4
    ensures forall i, j :: 0 <= i < j < |Issues(latex)| ==> Rank(Issues(latex)[i]) < Rank(Issues(latex)[j])
  {
  }

  function Rank(i: Issue): nat {
    match i
    case DocumentEmpty => 0
    case MissingBegin => 1
    case MissingEnd => 2
    case Mismatched(_, _) => 3
  }

  /** An empty or whitespace-only source gets exactly the first three
      issues: both environment counts are zero. */
  lemma WhitespaceOnlyIssues(latex: string)
    requires AllSpace(latex)
    ensures Issues(latex) == [DocumentEmpty, MissingBegin, MissingEnd]
  {
    assert Strip(latex) == "";
    assert !Contains("", BeginDocument);
    assert !Contains("", EndDocument);
  }
}
