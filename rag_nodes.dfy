/** The two retrieval nodes of the review graph. Each turns the sections
    routed to its agent into a search query (a fixed base, the section
    types, then focus phrases chosen from the sections' text), retrieves
    three guideline documents and hands their formatted text to the agent.
    Retrieval goes through the agent's cached retrieval service and is an
    input here: `retrieve(query, k)`, a Failure standing for an exception.
    The section types come from a Python set, whose iteration order is not
    specified: `types` is any enumeration of them. */
module RagNodes {
  import opened Wrappers
  import opened Text
  import opened Schemas
  import opened RagService

  const ClarityBase: string := "writing clarity guidelines mathematical papers"
  const LongPhrase: string := "simplifying complex sentences"
  const ClarityMathPhrase: string := "clear mathematical statements"

  const RigorBase: string := "mathematical rigor validation proof writing"
  const ProofPhrase: string := "proof structure validation"
  const ExperimentPhrase: string := "experimental validation statistical methods"
  const RigorMathPhrase: string := "assumptions definitions mathematical statements"

  /** The number of guideline documents each node asks for. */
  const GuidelineCount: int := 3

  // ---------------------------------------------------------------------
  // What the query is built from
  // ---------------------------------------------------------------------

  /** The distinct lower-cased section types. */
  function SectionTypes(sections: seq<Section>): set<string> {
    set s | s in sections :: Lower(s.sectionType)
  }

  /** `types` lists every element of `ts` exactly once. */
  ghost predicate Enumerates(types: seq<string>, ts: set<string>) {
    && (forall t :: t in types <==> t in ts)
    && (forall i, j :: 0 <= i < j < |types| ==> types[i] != types[j])
  }

  /** The text sample: the first 200 characters of each of the first two
      sections, joined with spaces. */
  function Sample(sections: seq<Section>): string {
    var n := if |sections| < 2 then |sections| else 2;
    Join(" ", seq(n, k requires 0 <= k < n && n <= |sections| => Take(sections[k].content, 200)))
  }

  /** The lower-cased sample mentions `word`. */
  predicate Mentions(sections: seq<Section>, word: string) {
    Contains(Lower(Sample(sections)), word)
  }

  /** Some section has more than 100 whitespace-separated words. */
  predicate HasLongSection(sections: seq<Section>) {
    exists s :: s in sections && WordCount(s.content) > 100
  }

  /** The type part of the query, present when there are sections. */
  function TypePart(sections: seq<Section>, types: seq<string>): (p: seq<string>)
    ensures |p| == if |sections| > 0 then 1 else 0
  {
    if |sections| > 0 then [Join(", ", types)] else []
  }

  // ---------------------------------------------------------------------
  // Queries
  // ---------------------------------------------------------------------

  /** The clarity node's focus phrases, in the order they are appended. */
  function ClarityFocus(sections: seq<Section>): seq<string> {
    (if HasLongSection(sections) then [LongPhrase] else [])
    + (if Mentions(sections, "theorem") || Mentions(sections, "lemma") then [ClarityMathPhrase] else [])
  }

  /** The rigor node's focus phrases, in the order they are appended. */
  function RigorFocus(sections: seq<Section>): seq<string> {
    RigorPhrases(Mentions(sections, "proof"),
                 Mentions(sections, "experiment") || Mentions(sections, "result"),
                 Mentions(sections, "theorem") || Mentions(sections, "lemma"))
  }

  /** The rigor phrases for the outcomes of the three tests, in order. */
  function RigorPhrases(proof: bool, experiment: bool, math: bool): seq<string> {
    (if proof then [ProofPhrase] else [])
    + (if experiment then [ExperimentPhrase] else [])
    + (if math then [RigorMathPhrase] else [])
  }

  /** The clarity node's `_formulate_query`. */
  function ClarityQuery(sections: seq<Section>, types: seq<string>): string {
    Join(" ", [ClarityBase] + TypePart(sections, types) + ClarityFocus(sections))
  }

  /** The rigor node's `_formulate_query`. */
  function RigorQuery(sections: seq<Section>, types: seq<string>): string {
    Join(" ", [RigorBase] + TypePart(sections, types) + RigorFocus(sections))
  }

  /** The clarity focus: the long-text phrase exactly when some section is
      long, the statement phrase exactly when the sample mentions a theorem
      or a lemma, and in that order. */
  lemma ClarityFocusMeaning(sections: seq<Section>)
    ensures LongPhrase in ClarityFocus(sections) <==> exists s :: s in sections && WordCount(s.content) > 100
    ensures ClarityMathPhrase in ClarityFocus(sections) <==>
      Contains(Lower(Sample(sections)), "theorem") || Contains(Lower(Sample(sections)), "lemma")
    ensures |ClarityFocus(sections)| == 2 ==> ClarityFocus(sections) == [LongPhrase, ClarityMathPhrase]
  {
  }

  /** The position of a rigor phrase in the order the node appends them. */
  function RigorRank(p: string): int {
    if p == ProofPhrase then 0 else if p == ExperimentPhrase then 1 else 2
  }

  /** The rigor focus: each phrase exactly when its test holds on the
      sample, in the fixed order proof, experiment, statement. */
  lemma RigorFocusMeaning(sections: seq<Section>)
    ensures ProofPhrase in RigorFocus(sections) <==> Contains(Lower(Sample(sections)), "proof")
    ensures ExperimentPhrase in RigorFocus(sections) <==>
      Contains(Lower(Sample(sections)), "experiment") || Contains(Lower(Sample(sections)), "result")
    ensures RigorMathPhrase in RigorFocus(sections) <==>
      Contains(Lower(Sample(sections)), "theorem") || Contains(Lower(Sample(sections)), "lemma")
    ensures forall i, j :: 0 <= i < j < |RigorFocus(sections)| ==>
      RigorRank(RigorFocus(sections)[i]) < RigorRank(RigorFocus(sections)[j])
  {
    RigorPhrasesMeaning(Mentions(sections, "proof"),
                        Mentions(sections, "experiment") || Mentions(sections, "result"),
                        Mentions(sections, "theorem") || Mentions(sections, "lemma"));
  }

  /** Each phrase is listed exactly when its test holds, in rank order. */
  lemma RigorPhrasesMeaning(proof: bool, experiment: bool, math: bool)
    ensures ProofPhrase in RigorPhrases(proof, experiment, math) <==> proof
    ensures ExperimentPhrase in RigorPhrases(proof, experiment, math) <==> experiment
    ensures RigorMathPhrase in RigorPhrases(proof, experiment, math) <==> math
    ensures forall i, j :: 0 <= i < j < |RigorPhrases(proof, experiment, math)| ==>
      RigorRank(RigorPhrases(proof, experiment, math)[i]) < RigorRank(RigorPhrases(proof, experiment, math)[j])
  {
  }

  lemma JoinCons(sep: string, first: string, rest: seq<string>)
    requires |rest| > 0
    ensures Join(sep, [first] + rest) == first + sep + Join(sep, rest)
  {
    assert ([first] + rest)[1..] == rest;
  }

  /** A query starts with its base; with sections, the base is followed by
      a space and the comma-separated types. */
  lemma QueryStart(base: string, sections: seq<Section>, types: seq<string>, focus: seq<string>)
    ensures base <= Join(" ", [base] + TypePart(sections, types) + focus)
    ensures |sections| > 0 ==> base + " " + Join(", ", types) <= Join(" ", [base] + TypePart(sections, types) + focus)
  {
    var parts := [base] + TypePart(sections, types) + focus;
    if |parts| > 1 {
      JoinCons(" ", base, parts[1..]);
      assert [base] + parts[1..] == parts;
      if |sections| > 0 {
        var tail := parts[1..];
        assert tail[0] == Join(", ", types);
        if |tail| > 1 {
          JoinCons(" ", tail[0], tail[1..]);
          assert [tail[0]] + tail[1..] == tail;
        }
      }
    }
  }

  /** Every lower-cased section type, and every focus phrase, occurs in the
      query. */
  lemma QueryMentions(base: string, sections: seq<Section>, types: seq<string>, focus: seq<string>)
    requires Enumerates(types, SectionTypes(sections))
    ensures forall s :: s in sections ==> Contains(Join(" ", [base] + TypePart(sections, types) + focus), Lower(s.sectionType))
    ensures forall p :: p in focus ==> Contains(Join(" ", [base] + TypePart(sections, types) + focus), p)
  {
    var parts := [base] + TypePart(sections, types) + focus;
    var q := Join(" ", parts);
    forall s | s in sections ensures Contains(q, Lower(s.sectionType)) {
      var t := Lower(s.sectionType);
      assert t in SectionTypes(sections);
      var k :| 0 <= k < |types| && types[k] == t;
      JoinHoldsPart(", ", types, k);
      assert parts[1] == Join(", ", types);
      JoinHoldsPart(" ", parts, 1);
      ContainsTransitive(q, parts[1], t);
    }
    forall p | p in focus ensures Contains(q, p) {
      var k :| 0 <= k < |focus| && focus[k] == p;
      var at := 1 + |TypePart(sections, types)| + k;
      assert parts[at] == p;
      JoinHoldsPart(" ", parts, at);
    }
  }

  /** The two queries in terms of what they promise. */
  lemma ClarityQueryMeaning(sections: seq<Section>, types: seq<string>)
    requires Enumerates(types, SectionTypes(sections))
    ensures ClarityBase <= ClarityQuery(sections, types)
    ensures forall s :: s in sections ==> Contains(ClarityQuery(sections, types), Lower(s.sectionType))
    ensures HasLongSection(sections) ==> Contains(ClarityQuery(sections, types), LongPhrase)
    ensures Mentions(sections, "theorem") || Mentions(sections, "lemma") ==>
      Contains(ClarityQuery(sections, types), ClarityMathPhrase)
  {
    QueryStart(ClarityBase, sections, types, ClarityFocus(sections));
    QueryMentions(ClarityBase, sections, types, ClarityFocus(sections));
  }

  lemma RigorQueryMeaning(sections: seq<Section>, types: seq<string>)
    requires Enumerates(types, SectionTypes(sections))
    ensures RigorBase <= RigorQuery(sections, types)
    ensures forall s :: s in sections ==> Contains(RigorQuery(sections, types), Lower(s.sectionType))
    ensures Mentions(sections, "proof") ==> Contains(RigorQuery(sections, types), ProofPhrase)
    ensures Mentions(sections, "experiment") || Mentions(sections, "result") ==>
      Contains(RigorQuery(sections, types), ExperimentPhrase)
    ensures Mentions(sections, "theorem") || Mentions(sections, "lemma") ==>
      Contains(RigorQuery(sections, types), RigorMathPhrase)
  {
    QueryStart(RigorBase, sections, types, RigorFocus(sections));
    QueryMentions(RigorBase, sections, types, RigorFocus(sections));
  }

  // ---------------------------------------------------------------------
  // The nodes
  // ---------------------------------------------------------------------

  /** A node's `__call__` around its query: no sections, no retrieval and
      empty guidelines; otherwise the formatted documents, or empty
      guidelines when retrieval or formatting raises. */
  function NodeGuidelines(sections: seq<Section>, query: string, retrieve: (string, int) -> Result<seq<Document>>,
                          ff: FloatFormat): (g: string)
    ensures sections == [] ==> g == ""
    ensures g == "" || g == NoResults || Header <= g
    ensures g != "" ==> retrieve(query, GuidelineCount).Success?
    ensures g != "" ==> Formatted(retrieve(query, GuidelineCount).value, ff) == Success(g)
  {
    if sections == [] then ""
    else
      match retrieve(query, GuidelineCount)
      case Failure(_) => ""
      case Success(docs) =>
        FormattedHeader(docs, ff);
        match Formatted(docs, ff)
        case Failure(_) => ""
        case Success(text) => text
  }

  /** The clarity node: guidelines for the sections routed to clarity. */
  function ClarityGuidelines(sections: seq<Section>, types: seq<string>, retrieve: (string, int) -> Result<seq<Document>>,
                             ff: FloatFormat): (g: string)
    requires Enumerates(types, SectionTypes(sections))
    ensures sections == [] ==> g == ""
    ensures g != "" ==> retrieve(ClarityQuery(sections, types), GuidelineCount).Success?
  {
    NodeGuidelines(sections, ClarityQuery(sections, types), retrieve, ff)
  }

  /** The rigor node: guidelines for the sections routed to rigor. */
  function RigorGuidelines(sections: seq<Section>, types: seq<string>, retrieve: (string, int) -> Result<seq<Document>>,
                           ff: FloatFormat): (g: string)
    requires Enumerates(types, SectionTypes(sections))
    ensures sections == [] ==> g == ""
    ensures g != "" ==> retrieve(RigorQuery(sections, types), GuidelineCount).Success?
  {
    NodeGuidelines(sections, RigorQuery(sections, types), retrieve, ff)
  }

  /** Retrieved documents always reach the agent: their texts all occur in
      the guidelines unless formatting raised. */
  lemma GuidelinesHoldRetrievedText(sections: seq<Section>, query: string,
                                    retrieve: (string, int) -> Result<seq<Document>>, ff: FloatFormat, k: nat)
    requires sections != [] && retrieve(query, GuidelineCount).Success?
    requires k < |retrieve(query, GuidelineCount).value|
    requires Formatted(retrieve(query, GuidelineCount).value, ff).Success?
    ensures Contains(NodeGuidelines(sections, query, retrieve, ff), retrieve(query, GuidelineCount).value[k].pageContent)
  {
    FormattedHoldsEveryDocument(retrieve(query, GuidelineCount).value, ff, k);
  }
}
