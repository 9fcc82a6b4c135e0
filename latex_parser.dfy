/** Splitting a LaTeX source into sections. The body between the first
    `\begin{document}` and the first `\end{document}` (or the whole source
    when either is missing) is cut at every `\section{..}`,
    `\subsection{..}` and `\subsubsection{..}` marker; each piece runs to the
    next marker and is typed from its title. Regular-expression matching is
    modelled by explicit scans with the same first-match and
    non-overlapping rules. */
module LatexParser {
  import opened Wrappers
  import opened Text
  import opened Schemas
  import opened Sequences

  const BeginDocument: string := "\\begin{document}"
  const EndDocument: string := "\\end{document}"

  /** The marker patterns, in the order they are searched. */
  const MarkerPatterns: seq<string> := ["\\section{", "\\subsection{", "\\subsubsection{"]

  // ---------------------------------------------------------------------
  // Document boundaries
  // ---------------------------------------------------------------------

  /** `_find_document_start`: the index just past the first
      `\begin{document}`, or -1. */
  function FindDocumentStart(latex: string): (r: int)
    ensures r == -1 <==> !Contains(latex, BeginDocument)
    ensures r != -1 ==>
      r >= |BeginDocument| && OccursAt(latex, BeginDocument, r - |BeginDocument|)
      && forall j :: 0 <= j < r - |BeginDocument| ==> !OccursAt(latex, BeginDocument, j)
  {
    match FindFrom(latex, BeginDocument, 0)
    case Some(i) => i + |BeginDocument|
    case None => -1
  }

  /** `_find_document_end`: the index of the first `\end{document}`, or -1. */
  function FindDocumentEnd(latex: string): (r: int)
    ensures r == -1 <==> !Contains(latex, EndDocument)
    ensures r != -1 ==>
      r >= 0 && OccursAt(latex, EndDocument, r) && forall j :: 0 <= j < r ==> !OccursAt(latex, EndDocument, j)
  {
    match FindFrom(latex, EndDocument, 0)
    case Some(i) => i
    case None => -1
  }

  /** The part of the source that is parsed: from `DocStart` to `DocEnd`,
      or everything when either boundary is missing. */
  function DocStart(latex: string): (a: nat)
    ensures a <= |latex|
  {
    var s := FindDocumentStart(latex);
    var e := FindDocumentEnd(latex);
    if s == -1 || e == -1 then 0 else s
  }

  function DocEnd(latex: string): (b: nat)
    ensures b <= |latex|
  {
    var s := FindDocumentStart(latex);
    var e := FindDocumentEnd(latex);
    if s == -1 || e == -1 then |latex| else e
  }

  /** The parsed text; empty when the first `\end{document}` comes before
      the end of the first `\begin{document}`. */
  function DocumentContent(latex: string): string {
    Slice(latex, DocStart(latex), DocEnd(latex))
  }

  /** Either both boundaries are present and the body lies between them, or
      the whole source is parsed. */
  lemma DocumentContentBounds(latex: string)
    ensures !Contains(latex, BeginDocument) || !Contains(latex, EndDocument) ==> DocumentContent(latex) == latex
    ensures Contains(latex, BeginDocument) && Contains(latex, EndDocument) ==>
      DocStart(latex) == FindDocumentStart(latex) && DocEnd(latex) == FindDocumentEnd(latex)
  {
  }

  // ---------------------------------------------------------------------
  // Marker matching
  // ---------------------------------------------------------------------

  /** The first '}' at or after `j`. */
  function CloseBrace(doc: string, j: nat): (r: Option<nat>)
    ensures r.Some? ==> j <= r.value < |doc| && doc[r.value] == '}' && forall k :: j <= k < r.value ==> doc[k] != '}'
    ensures r.None? ==> forall k :: j <= k < |doc| ==> doc[k] != '}'
    decreases |doc| - j
  {
    if j >= |doc| then None
    else if doc[j] == '}' then Some(j)
    else CloseBrace(doc, j + 1)
  }

  /** The title captured by `marker([^}]+)}` at index `i`: the text up to
      the first '}', which must be non-empty. */
  function MatchAt(doc: string, marker: string, i: nat): Option<string>
  {
    if !OccursAt(doc, marker, i) then None
    else
      var j := i + |marker|;
      match CloseBrace(doc, j)
      case Some(e) => if e > j then Some(doc[j..e]) else None
      case None => None
  }

  /** A capture is the non-empty, brace-free text right after the marker,
      followed by a '}'; there is none exactly when the marker is absent,
      is followed by '}' or by nothing, or no '}' follows it. */
  lemma MatchAtMeaning(doc: string, marker: string, i: nat)
    ensures var r := MatchAt(doc, marker, i);
      r.Some? ==>
        OccursAt(doc, marker, i) && |r.value| > 0
        && i + |marker| + |r.value| < |doc|
        && doc[i + |marker|..i + |marker| + |r.value|] == r.value
        && doc[i + |marker| + |r.value|] == '}'
        && forall k :: 0 <= k < |r.value| ==> r.value[k] != '}'
    ensures MatchAt(doc, marker, i).None? <==>
      !OccursAt(doc, marker, i) || i + |marker| >= |doc| || doc[i + |marker|] == '}'
      || forall k :: i + |marker| <= k < |doc| ==> doc[k] != '}'
  {
    var j := i + |marker|;
    if OccursAt(doc, marker, i) && j < |doc| && doc[j] != '}' {
      var c := CloseBrace(doc, j);
      if c.Some? {
        assert c.value > j;
      }
    }
  }

  /** A match: the captured title and where the marker starts. */
  datatype Found = Found(title: string, start: nat)

  /** `re.finditer` for one marker pattern from index `from`: matches left
      to right, the search resuming after the end of each match. */
  function FindIter(doc: string, marker: string, from: nat): (r: seq<Found>)
    ensures forall k :: 0 <= k < |r| ==>
      from <= r[k].start < |doc| && MatchAt(doc, marker, r[k].start) == Some(r[k].title)
    decreases |doc| - from
  {
    if from >= |doc| then []
    else
      match MatchAt(doc, marker, from)
      case Some(t) => [Found(t, from)] + FindIter(doc, marker, from + |marker| + |t| + 1)
      case None => FindIter(doc, marker, from + 1)
  }

  /** Each match starts after the closing brace of the one before. */
  predicate NonOverlapping(r: seq<Found>, markerLength: nat) {
    forall k :: 0 <= k < |r| - 1 ==> r[k].start + markerLength + |r[k].title| < r[k + 1].start
  }

  /** A match at `from` is followed by the matches after its closing brace. */
  lemma FindIterAtMatch(doc: string, marker: string, from: nat, t: string)
    requires from < |doc| && MatchAt(doc, marker, from) == Some(t)
    ensures FindIter(doc, marker, from) == [Found(t, from)] + FindIter(doc, marker, from + |marker| + |t| + 1)
  {
  }

  /** Without a match at `from` the search moves on by one. */
  lemma FindIterNoMatch(doc: string, marker: string, from: nat)
    requires from < |doc| && MatchAt(doc, marker, from).None?
    ensures FindIter(doc, marker, from) == FindIter(doc, marker, from + 1)
  {
  }

  /** A match that ends before the first of others does not overlap them. */
  lemma ConsNonOverlapping(f: Found, rest: seq<Found>, markerLength: nat)
    requires NonOverlapping(rest, markerLength)
    requires rest != [] ==> f.start + markerLength + |f.title| < rest[0].start
    ensures NonOverlapping([f] + rest, markerLength)
  {
    var r := [f] + rest;
    forall k | 0 <= k < |r| - 1 ensures r[k].start + markerLength + |r[k].title| < r[k + 1].start {
      if k > 0 {
        assert r[k] == rest[k - 1] && r[k + 1] == rest[k];
      }
    }
  }

  /** Matches of one pattern never overlap. */
  lemma {:induction false} FindIterNonOverlapping(doc: string, marker: string, from: nat)
    ensures NonOverlapping(FindIter(doc, marker, from), |marker|)
    decreases |doc| - from
  {
    if from < |doc| {
      match MatchAt(doc, marker, from)
      case Some(t) =>
        var next := from + |marker| + |t| + 1;
        FindIterNonOverlapping(doc, marker, next);
        FindIterAtMatch(doc, marker, from, t);
        var rest := FindIter(doc, marker, next);
        assert rest != [] ==> next <= rest[0].start;
        ConsNonOverlapping(Found(t, from), rest, |marker|);
      case None =>
        FindIterNoMatch(doc, marker, from);
        FindIterNonOverlapping(doc, marker, from + 1);
    }
  }

  /** `j` lies within the found match `f`, from its backslash to its closing brace. */
  predicate Covers(f: Found, markerLength: nat, j: int) {
    f.start <= j <= f.start + markerLength + |f.title|
  }

  /** The search finds the leftmost match first. */
  lemma {:induction false} FindIterFindsLeftmost(doc: string, marker: string, from: nat, i: nat)
    requires from <= i < |doc| && MatchAt(doc, marker, i).Some?
    requires forall j :: from <= j < i ==> MatchAt(doc, marker, j).None?
    ensures FindIter(doc, marker, from) != []
    ensures FindIter(doc, marker, from)[0] == Found(MatchAt(doc, marker, i).value, i)
    decreases i - from
  {
    if from < i {
      FindIterNoMatch(doc, marker, from);
      FindIterFindsLeftmost(doc, marker, from + 1, i);
    } else {
      FindIterAtMatch(doc, marker, from, MatchAt(doc, marker, i).value);
    }
  }

  /** No match is skipped: every match at or after `from` is found, or lies
      inside a match found before it. */
  lemma {:induction false} FindIterComplete(doc: string, marker: string, from: nat, j: nat)
    requires from <= j < |doc| && MatchAt(doc, marker, j).Some?
    ensures exists k :: 0 <= k < |FindIter(doc, marker, from)| && Covers(FindIter(doc, marker, from)[k], |marker|, j)
    decreases |doc| - from
  {
    match MatchAt(doc, marker, from)
    case Some(t) =>
      var next := from + |marker| + |t| + 1;
      FindIterAtMatch(doc, marker, from, t);
      var r := FindIter(doc, marker, from);
      if j < next {
        assert Covers(r[0], |marker|, j);
      } else {
        FindIterComplete(doc, marker, next, j);
        var rest := FindIter(doc, marker, next);
        var k :| 0 <= k < |rest| && Covers(rest[k], |marker|, j);
        assert r[k + 1] == rest[k];
      }
    case None =>
      FindIterNoMatch(doc, marker, from);
      FindIterComplete(doc, marker, from + 1, j);
  }

  /** The search finds nothing exactly when nothing matches from `from` on. */
  lemma FindIterEmpty(doc: string, marker: string, from: nat)
    ensures FindIter(doc, marker, from) == [] <==> forall j :: from <= j < |doc| ==> MatchAt(doc, marker, j).None?
  {
    var r := FindIter(doc, marker, from);
    if r == [] {
      forall j | from <= j < |doc| ensures MatchAt(doc, marker, j).None? {
        if MatchAt(doc, marker, j).Some? {
          FindIterComplete(doc, marker, from, j);
          assert false;
        }
      }
    } else {
      assert MatchAt(doc, marker, r[0].start) == Some(r[0].title);
    }
  }

  /** A section marker found in the body, with its 1-based line in the
      whole source. */
  datatype Marker = Marker(title: string, start: nat, line: int)

  /** The line a marker at `start` is on: newlines before it in the body,
      plus one, plus the newlines before the body. */
  function LineOf(doc: string, start: nat, offset: int): int {
    CountChar(Take(doc, start), '\n') + 1 + offset
  }

  function ToMarkers(doc: string, found: seq<Found>, offset: int): (r: seq<Marker>)
    ensures |r| == |found|
    ensures forall k :: 0 <= k < |found| ==>
      r[k] == Marker(found[k].title, found[k].start, LineOf(doc, found[k].start, offset))
  {
    seq(|found|, k requires 0 <= k < |found| => Marker(found[k].title, found[k].start, LineOf(doc, found[k].start, offset)))
  }

  /** `m` is a real marker of the body: one of `patterns` matches at its
      start capturing its title, and its line is computed from its start. */
  predicate IsMarker(doc: string, offset: int, patterns: seq<string>, m: Marker) {
    && (exists p :: 0 <= p < |patterns| && MatchAt(doc, patterns[p], m.start) == Some(m.title))
    && HasLine(doc, offset, m)
  }

  /** `m` starts inside the body, on the line computed from its start. */
  predicate HasLine(doc: string, offset: int, m: Marker) {
    m.start < |doc| && m.line == LineOf(doc, m.start, offset)
  }

  /** The markers of each pattern in turn. */
  function MarkersOfPatterns(doc: string, offset: int, patterns: seq<string>): seq<Marker> {
    if |patterns| == 0 then []
    else
      MarkersOfPatterns(doc, offset, patterns[..|patterns| - 1])
      + ToMarkers(doc, FindIter(doc, patterns[|patterns| - 1], 0), offset)
  }

  lemma {:induction false} MarkersOfPatternsSound(doc: string, offset: int, patterns: seq<string>)
    ensures forall m :: m in MarkersOfPatterns(doc, offset, patterns) ==> IsMarker(doc, offset, patterns, m)
  {
    if |patterns| > 0 {
      var init := patterns[..|patterns| - 1];
      var last := patterns[|patterns| - 1];
      MarkersOfPatternsSound(doc, offset, init);
      var found := FindIter(doc, last, 0);
      var ms := ToMarkers(doc, found, offset);
      forall m | m in MarkersOfPatterns(doc, offset, patterns) ensures IsMarker(doc, offset, patterns, m) {
        if m in MarkersOfPatterns(doc, offset, init) {
          assert IsMarker(doc, offset, init, m);
          var p :| 0 <= p < |init| && MatchAt(doc, init[p], m.start) == Some(m.title);
          assert patterns[p] == init[p];
        } else {
          assert m in ms;
          var k :| 0 <= k < |ms| && ms[k] == m;
          assert MatchAt(doc, patterns[|patterns| - 1], found[k].start) == Some(found[k].title);
        }
      }
    }
  }

  /** All markers, in pattern order. */
  function AllMarkers(doc: string, offset: int): seq<Marker> {
    MarkersOfPatterns(doc, offset, MarkerPatterns)
  }

  /** The marker-collection loop of `parse_sections`: every match of every
      pattern, pattern by pattern. */
  method CollectMarkers(doc: string, offset: int, patterns: seq<string>) returns (ms: seq<Marker>)
    ensures ms == MarkersOfPatterns(doc, offset, patterns)
  {
    ms := [];
    var p := 0;
    while p < |patterns|
      invariant 0 <= p <= |patterns|
      invariant ms == MarkersOfPatterns(doc, offset, patterns[..p])
    {
      var found := FindIter(doc, patterns[p], 0);
      ms := AppendMarkers(doc, offset, found, ms);
      assert patterns[..p + 1][..p] == patterns[..p];
      p := p + 1;
    }
    assert patterns[..p] == patterns;
  }

  /** The inner loop: one marker per match, with its line number. */
  method AppendMarkers(doc: string, offset: int, found: seq<Found>, before: seq<Marker>) returns (ms: seq<Marker>)
    ensures ms == before + ToMarkers(doc, found, offset)
  {
    ms := before;
    var j := 0;
    while j < |found|
      invariant 0 <= j <= |found|
      invariant ms == before + ToMarkers(doc, found[..j], offset)
    {
      var lineNum := CountChar(Take(doc, found[j].start), '\n') + 1 + offset;
      var m := Marker(found[j].title, found[j].start, lineNum);
      assert ToMarkers(doc, found[..j + 1], offset) == ToMarkers(doc, found[..j], offset) + [m];
      ms := ms + [m];
      j := j + 1;
    }
    assert found[..j] == found;
  }

  /** No two patterns match at the same index: the three markers differ in
      their third or sixth character. */
  lemma PatternsExclusive(doc: string, p: nat, q: nat, i: nat)
    requires p < q < |MarkerPatterns|
    ensures !(OccursAt(doc, MarkerPatterns[p], i) && OccursAt(doc, MarkerPatterns[q], i))
  {
    var a := MarkerPatterns[p];
    var b := MarkerPatterns[q];
    var k := if p == 0 then 2 else 5;
    assert a[k] == 'e' && b[k] == 'u';
    if OccursAt(doc, a, i) {
      assert doc[i..i + |a|][k] == doc[i + k];
      if i + |b| <= |doc| {
        assert doc[i..i + |b|][k] == doc[i + k];
      }
    }
  }

  // ---------------------------------------------------------------------
  // Sorting by position
  // ---------------------------------------------------------------------

  predicate SortedByStart(ms: seq<Marker>) {
    forall i, j :: 0 <= i < j < |ms| ==> ms[i].start <= ms[j].start
  }

  predicate StartAtLeast(ms: seq<Marker>, b: nat) {
    forall k :: 0 <= k < |ms| ==> b <= ms[k].start
  }

  /** Inserts `m` after every element that does not start later. */
  function InsertByStart(sorted: seq<Marker>, m: Marker): (r: seq<Marker>)
    ensures |r| == |sorted| + 1
    ensures multiset(r) == multiset(sorted) + multiset{m}
  {
    if |sorted| == 0 then [m]
    else if sorted[0].start > m.start then [m] + sorted
    else
      assert sorted == [sorted[0]] + sorted[1..];
      [sorted[0]] + InsertByStart(sorted[1..], m)
  }

  lemma {:induction false} InsertKeepsBound(sorted: seq<Marker>, m: Marker, b: nat)
    requires StartAtLeast(sorted, b) && b <= m.start
    ensures StartAtLeast(InsertByStart(sorted, m), b)
  {
    if |sorted| > 0 && sorted[0].start <= m.start {
      InsertKeepsBound(sorted[1..], m, b);
    }
  }

  lemma {:induction false} InsertSorted(sorted: seq<Marker>, m: Marker)
    requires SortedByStart(sorted)
    ensures SortedByStart(InsertByStart(sorted, m))
  {
    if |sorted| > 0 {
      if sorted[0].start > m.start {
        assert StartAtLeast(sorted, sorted[0].start);
      } else {
        InsertSorted(sorted[1..], m);
        InsertKeepsBound(sorted[1..], m, sorted[0].start);
      }
    }
  }

  /** `section_matches.sort(key=start)`: a stable sort by position. */
  function SortByStart(ms: seq<Marker>): (r: seq<Marker>)
    ensures SortedByStart(r)
    ensures multiset(r) == multiset(ms)
  {
    if |ms| == 0 then []
    else
      assert ms == ms[..|ms| - 1] + [ms[|ms| - 1]];
      var sorted := SortByStart(ms[..|ms| - 1]);
      InsertSorted(sorted, ms[|ms| - 1]);
      InsertByStart(sorted, ms[|ms| - 1])
  }

  // ---------------------------------------------------------------------
  // Building the sections
  // ---------------------------------------------------------------------

  /** Where the content of marker `i` ends: at the next marker, or at the
      end of the body. */
  function ContentEnd(doc: string, ms: seq<Marker>, i: nat): nat
    requires i < |ms|
  {
    if i + 1 < |ms| then ms[i + 1].start else |doc|
  }

  /** The text of section `i`: from its marker to where it ends. */
  function ContentAt(doc: string, ms: seq<Marker>, i: nat): string
    requires i < |ms|
  {
    Slice(doc, ms[i].start, ContentEnd(doc, ms, i))
  }

  function SectionAt(doc: string, ms: seq<Marker>, i: nat): Section
    requires i < |ms|
  {
    var content := ContentAt(doc, ms, i);
    Section(ms[i].title, content, ClassifySection(ms[i].title), ms[i].line, ms[i].line + CountChar(content, '\n'))
  }

  /** One section per sorted marker. */
  function BuildSections(doc: string, ms: seq<Marker>): (r: seq<Section>)
    ensures |r| == |ms| && forall i :: 0 <= i < |ms| ==> r[i] == SectionAt(doc, ms, i)
  {
    seq(|ms|, i requires 0 <= i < |ms| => SectionAt(doc, ms, i))
  }

  /** The section-building loop of `parse_sections`. */
  method BuildSectionList(doc: string, ms: seq<Marker>) returns (sections: seq<Section>)
    ensures sections == BuildSections(doc, ms)
  {
    sections := [];
    var i := 0;
    while i < |ms|
      invariant 0 <= i <= |ms|
      invariant sections == BuildSections(doc, ms)[..i]
    {
      var contentStart := ms[i].start;
      var contentEnd := if i + 1 < |ms| then ms[i + 1].start else |doc|;
      var content := Slice(doc, contentStart, contentEnd);
      var lineEnd := ms[i].line + CountChar(content, '\n');
      var sectionType := ClassifySection(ms[i].title);
      var section := Section(ms[i].title, content, sectionType, ms[i].line, lineEnd);
      assert section == BuildSections(doc, ms)[i];
      TakeOneMore(BuildSections(doc, ms), i);
      sections := sections + [section];
      i := i + 1;
    }
    assert BuildSections(doc, ms)[..i] == BuildSections(doc, ms);
  }

  /** The newlines before the parsed body. */
  function LineOffset(latex: string): int {
    CountChar(latex[..DocStart(latex)], '\n')
  }

  /** The markers of a body, sorted by position. */
  function SortedMarkers(doc: string, offset: int): (r: seq<Marker>)
    ensures SortedByStart(r)
    ensures forall m :: m in r ==> IsMarker(doc, offset, MarkerPatterns, m)
  {
    var all := AllMarkers(doc, offset);
    MarkersOfPatternsSound(doc, offset, MarkerPatterns);
    var r := SortByStart(all);
    assert forall m :: m in r ==> m in all by {
      forall m | m in r ensures m in all {
        assert m in multiset(r);
      }
    }
    r
  }

  /** The markers of a source, sorted by position. */
  function MarkersOf(latex: string): seq<Marker> {
    SortedMarkers(DocumentContent(latex), LineOffset(latex))
  }

  /** The patterns yield no marker exactly when none of them matches anywhere. */
  lemma {:induction false} MarkersOfPatternsEmpty(doc: string, offset: int, patterns: seq<string>)
    ensures MarkersOfPatterns(doc, offset, patterns) == [] <==>
      forall p, i :: 0 <= p < |patterns| && 0 <= i < |doc| ==> MatchAt(doc, patterns[p], i).None?
  {
    if |patterns| > 0 {
      var init := patterns[..|patterns| - 1];
      var last := patterns[|patterns| - 1];
      MarkersOfPatternsEmpty(doc, offset, init);
      FindIterEmpty(doc, last, 0);
      assert forall p :: 0 <= p < |init| ==> patterns[p] == init[p];
    }
  }

  /** A source has no section marker exactly when no marker pattern matches
      anywhere in its body; `ParseFallback` then applies. */
  lemma MarkersOfEmpty(latex: string)
    ensures MarkersOf(latex) == [] <==>
      forall p, i :: 0 <= p < |MarkerPatterns| && 0 <= i < |DocumentContent(latex)| ==>
        MatchAt(DocumentContent(latex), MarkerPatterns[p], i).None?
  {
    var doc := DocumentContent(latex);
    var all := AllMarkers(doc, LineOffset(latex));
    MarkersOfPatternsEmpty(doc, LineOffset(latex), MarkerPatterns);
    assert |multiset(MarkersOf(latex))| == |multiset(all)|;
  }

  /** What `parse_sections` returns for `latex`. */
  function Parse(latex: string): seq<Section> {
    var doc := DocumentContent(latex);
    var sections := BuildSections(doc, MarkersOf(latex));
    if |sections| == 0 then [Section("Document", doc, "general", 1, |Split(latex, '\n')|)]
    else sections
  }

  /** `parse_sections`. */
  method ParseSections(latex: string) returns (sections: seq<Section>)
    ensures sections == Parse(latex)
  {
    var lines := Split(latex, '\n');
    var docStart := FindDocumentStart(latex);
    var docEnd := FindDocumentEnd(latex);
    if docStart == -1 || docEnd == -1 {
      docStart := 0;
      docEnd := |latex|;
    }
    var doc := Slice(latex, docStart, docEnd);
    var lineOffset := CountChar(latex[..docStart], '\n');
    var found := CollectMarkers(doc, lineOffset, MarkerPatterns);
    var sorted := SortByStart(found);
    sections := BuildSectionList(doc, sorted);
    if |sections| == 0 {
      sections := [Section("Document", doc, "general", 1, |lines|)];
    }
  }

  // ---------------------------------------------------------------------
  // Properties of the parse
  // ---------------------------------------------------------------------

  /** The result is never empty. */
  lemma ParseNeverEmpty(latex: string)
    ensures |Parse(latex)| > 0
  {
  }

  /** Without any marker the result is the single "Document" section
      holding the whole body, from line 1 to the number of lines of the
      whole source. */
  lemma ParseFallback(latex: string)
    requires MarkersOf(latex) == []
    ensures Parse(latex) == [Section("Document", DocumentContent(latex), "general", 1, CountChar(latex, '\n') + 1)]
  {
    assert BuildSections(DocumentContent(latex), MarkersOf(latex)) == [];
    assert |Split(latex, '\n')| == CountChar(latex, '\n') + 1;
  }

  /** With markers, there is one section per marker, in position order. */
  lemma ParseFollowsMarkers(latex: string)
    requires MarkersOf(latex) != []
    ensures Parse(latex) == BuildSections(DocumentContent(latex), MarkersOf(latex))
    ensures |Parse(latex)| == |MarkersOf(latex)|
    ensures SortedByStart(MarkersOf(latex))
  {
  }

  function Contents(sections: seq<Section>): (r: seq<string>)
    ensures |r| == |sections| && forall i :: 0 <= i < |sections| ==> r[i] == sections[i].content
  {
    seq(|sections|, i requires 0 <= i < |sections| => sections[i].content)
  }

  /** Sorted markers within the body cut it into consecutive slices:
      together the contents are the body from the first marker on. */
  lemma SectionsContiguous(doc: string, ms: seq<Marker>)
    requires |ms| > 0 && SortedByStart(ms)
    requires forall k :: 0 <= k < |ms| ==> ms[k].start <= |doc|
    ensures Concat(Contents(BuildSections(doc, ms))) == doc[ms[0].start..]
  {
    var cs := Contents(BuildSections(doc, ms));
    var bounds := seq(|ms|, k requires 0 <= k < |ms| => ms[k].start) + [|doc|];
    forall k {:trigger cs[k]} | 0 <= k < |cs|
      ensures bounds[k] <= bounds[k + 1] <= |doc| && cs[k] == doc[bounds[k]..bounds[k + 1]]
    {
      assert bounds[k] == ms[k].start;
      assert bounds[k + 1] == ContentEnd(doc, ms, k);
      assert ms[k].start <= ContentEnd(doc, ms, k) <= |doc|;
      assert cs[k] == ContentAt(doc, ms, k);
    }
    assert SlicesOf(doc, cs, bounds);
    ConcatOfSlices(doc, cs, bounds, 0);
    assert cs[0..] == cs;
  }

  /** The contents of a parse are consecutive slices of the body: together
      they are the body from the first marker on. */
  lemma ParseContentsContiguous(latex: string)
    requires MarkersOf(latex) != []
    ensures MarkersOf(latex)[0].start <= |DocumentContent(latex)|
    ensures Concat(Contents(Parse(latex))) == DocumentContent(latex)[MarkersOf(latex)[0].start..]
  {
    var doc := DocumentContent(latex);
    var ms := MarkersOf(latex);
    forall k | 0 <= k < |ms| ensures ms[k].start <= |doc| {
      assert ms[k] in ms;
    }
    ParseFollowsMarkers(latex);
    SectionsContiguous(doc, ms);
  }

  /** Every section of a parse comes from a marker in the body: its title
      is what one of the patterns captures at the marker's position. */
  lemma ParseTitles(latex: string)
    requires MarkersOf(latex) != []
    ensures forall i :: 0 <= i < |Parse(latex)| ==>
      Parse(latex)[i].title == MarkersOf(latex)[i].title
      && IsMarker(DocumentContent(latex), LineOffset(latex), MarkerPatterns, MarkersOf(latex)[i])
  {
    var ms := MarkersOf(latex);
    ParseFollowsMarkers(latex);
    forall i | 0 <= i < |ms|
      ensures IsMarker(DocumentContent(latex), LineOffset(latex), MarkerPatterns, ms[i])
    {
      assert ms[i] in ms;
    }
  }

  /** A marker's title is non-empty and holds no '}'. */
  lemma MarkerTitle(doc: string, offset: int, m: Marker)
    requires IsMarker(doc, offset, MarkerPatterns, m)
    ensures |m.title| > 0 && forall k :: 0 <= k < |m.title| ==> m.title[k] != '}'
  {
    var p :| 0 <= p < |MarkerPatterns| && MatchAt(doc, MarkerPatterns[p], m.start) == Some(m.title);
    MatchAtMeaning(doc, MarkerPatterns[p], m.start);
  }

  /** A section's last line adds the newlines of its content to its first,
      and its type comes from its title. */
  lemma SectionLines(doc: string, ms: seq<Marker>, i: nat)
    requires i < |ms|
    ensures var s := BuildSections(doc, ms)[i];
      s.lineStart == ms[i].line && s.lineEnd == s.lineStart + CountChar(s.content, '\n')
      && s.lineEnd >= s.lineStart && s.sectionType == ClassifySection(s.title)
  {
  }

  /** A marker's line is one more than the number of newlines before it in
      the whole source. */
  lemma MarkerLine(latex: string, m: Marker)
    requires HasLine(DocumentContent(latex), LineOffset(latex), m)
    ensures DocStart(latex) + m.start <= |latex|
    ensures m.line == CountChar(latex[..DocStart(latex) + m.start], '\n') + 1
  {
    LineInSlice(latex, DocStart(latex), DocEnd(latex), m);
  }

  /** `MarkerLine` for a marker of the slice `latex[a..b]`, whose lines are
      counted from the newlines before `a`. */
  lemma LineInSlice(latex: string, a: nat, b: nat, m: Marker)
    requires a <= |latex| && b <= |latex| && HasLine(Slice(latex, a, b), CountChar(latex[..a], '\n'), m)
    ensures a + m.start <= |latex|
    ensures m.line == CountChar(latex[..a + m.start], '\n') + 1
  {
    var doc := Slice(latex, a, b);
    BodyIsSlice(latex, a, b, doc);
    LineInBody(latex, a, b, m.start);
  }

  /** A non-empty `Slice(latex, a, b)` is `latex[a..b]`. */
  lemma BodyIsSlice(latex: string, a: nat, b: nat, doc: string)
    requires b <= |latex| && doc == Slice(latex, a, b) && |doc| > 0
    ensures a < b && doc == latex[a..b]
  {
  }

  /** Newlines before index `st` of the slice `latex[a..b]`, plus those
      before `a`, are the newlines before `a + st`. */
  lemma LineInBody(latex: string, a: nat, b: nat, st: nat)
    requires a <= b <= |latex| && st <= b - a
    ensures CountChar(Take(latex[a..b], st), '\n') + CountChar(latex[..a], '\n') == CountChar(latex[..a + st], '\n')
  {
    assert Take(latex[a..b], st) == latex[a..a + st];
    assert latex[..a + st] == latex[..a] + latex[a..a + st];
    CountCharConcat(latex[..a], latex[a..a + st], '\n');
  }

  // ---------------------------------------------------------------------
  // Classification
  // ---------------------------------------------------------------------

  /** The section types, in priority order, with the title keywords that
      select them. */
  const Classes: seq<(string, seq<string>)> := [
    ("introduction", ["introduction", "intro"]),
    ("methodology", ["method", "approach", "design"]),
    ("results", ["result", "experiment", "evaluation"]),
    ("discussion", ["discussion"]),
    ("conclusion", ["conclusion", "summary"]),
    ("background", ["related work", "background", "literature"])
  ]

  /** The index of the first class one of whose keywords occurs in the
      lowercased title; `|classes|` when none does. */
  function FirstClass(lower: string, classes: seq<(string, seq<string>)>): (k: nat)
    ensures k <= |classes|
    ensures forall j :: 0 <= j < k ==> !AnyContains(lower, classes[j].1)
    ensures k < |classes| ==> AnyContains(lower, classes[k].1)
  {
    if |classes| == 0 then 0
    else if AnyContains(lower, classes[0].1) then 0
    else 1 + FirstClass(lower, classes[1..])
  }

  function ClassifySection(title: string): (r: string)
    ensures r == "general" <==> forall j :: 0 <= j < |Classes| ==> !AnyContains(Lower(title), Classes[j].1)
    ensures r != "general" ==>
      exists k :: 0 <= k < |Classes| && r == Classes[k].0 && AnyContains(Lower(title), Classes[k].1)
        && (forall j :: 0 <= j < k ==> !AnyContains(Lower(title), Classes[j].1))
  {
    var k := FirstClass(Lower(title), Classes);
    if k < |Classes| then Classes[k].0 else "general"
  }
  /** The classification ignores ASCII case. */
  lemma ClassifyIgnoresCase(title: string)
    ensures ClassifySection(Lower(title)) == ClassifySection(title)
  {
    LowerIdempotent(title);
  }

  /** An introduction keyword wins over any later class. */
  lemma ClassifyPriority(title: string)
    requires Contains(Lower(title), "intro")
    ensures ClassifySection(title) == "introduction"
  {
    assert AnyContains(Lower(title), Classes[0].1);
  }
}
