/** The review workflow: which sections each agent reviews, how the agents'
    answers become section suggestions, how the two agents' suggestions are
    merged per section before orchestration, and the shape of the graph of
    steps built for a choice of agents. The agents' answers and the
    orchestrator's model call are inputs. */
module ReviewWorkflow {
  import opened Wrappers
  import opened Text
  import opened Schemas
  import opened Orchestrator

  // ---------------------------------------------------------------------
  // State
  // ---------------------------------------------------------------------

  /** `keep_first_value`: the existing value unless it is empty. */
  function KeepFirstValue<T>(left: seq<T>, right: seq<T>): (r: seq<T>)
    ensures left != [] ==> r == left
    ensures left == [] ==> r == right
  {
    if |left| == 0 then right else left
  }

  /** The reducer is associative and the empty list is its unit on both
      sides, so concurrent updates combine to the first non-empty one
      whatever their grouping. */
  lemma KeepFirstValueMonoid<T>(a: seq<T>, b: seq<T>, c: seq<T>)
    ensures KeepFirstValue(KeepFirstValue(a, b), c) == KeepFirstValue(a, KeepFirstValue(b, c))
    ensures KeepFirstValue([], a) == a && KeepFirstValue(a, []) == a
    ensures KeepFirstValue(a, a) == a
  {
  }

  /** The shared state of a review. */
  datatype ReviewState = ReviewState(
    sections: seq<Section>,
    sectionsForClarity: seq<Section>,
    sectionsForRigor: seq<Section>,
    clarityGuidelines: string,
    rigorGuidelines: string,
    claritySuggestions: seq<SectionSuggestions>,
    rigorSuggestions: seq<SectionSuggestions>,
    finalSuggestions: seq<SectionSuggestions>,
    error: Option<string>)

  /** The agents `review` runs: both when none are given. */
  function ReviewAgents(agents: Option<seq<string>>): (r: seq<string>)
    ensures agents.None? ==> r == ["clarity", "rigor"]
    ensures agents.Some? ==> r == agents.value
  {
    if agents.Some? then agents.value else DefaultAgents
  }

  /** The state `review` starts from. */
  function InitialState(sections: seq<Section>): (s: ReviewState)
    ensures s.sections == sections && s.error == None
    ensures s.sectionsForClarity == [] && s.sectionsForRigor == []
    ensures s.clarityGuidelines == "" && s.rigorGuidelines == ""
    ensures s.claritySuggestions == [] && s.rigorSuggestions == [] && s.finalSuggestions == []
  {
    ReviewState(sections, [], [], "", "", [], [], [], None)
  }

  // ---------------------------------------------------------------------
  // Routing
  // ---------------------------------------------------------------------

  const MathIndicators: seq<string> := [
    "\\begin{equation}", "\\begin{align}", "\\begin{theorem}", "\\begin{proof}",
    "\\begin{lemma}", "\\begin{proposition}",
    "theorem", "lemma", "proof", "proposition", "corollary"
  ]

  /** `_contains_mathematical_content`. */
  function ContainsMath(content: string): (r: bool)
    ensures r <==> exists k :: k in MathIndicators && Contains(Lower(content), k)
  {
    AnyContains(Lower(content), MathIndicators)
  }

  /** A theorem environment is mathematical content. */
  lemma TheoremIsMath()
    ensures ContainsMath("\\begin{theorem}")
  {
    var t := "\\begin{theorem}";
    assert Lower(t) == t;
    assert OccursAt(Lower(t), t, 0);
    assert t == MathIndicators[2];
  }

  /** Any content that holds mathematical content is mathematical. */
  lemma MathInConcat(a: string, b: string)
    requires ContainsMath(a)
    ensures ContainsMath(a + b)
  {
    LowerConcat(a, b);
    AnyContainsPrefix(Lower(a), Lower(b), MathIndicators);
  }

  lemma {:induction false} LowerConcat(a: string, b: string)
    ensures Lower(a + b) == Lower(a) + Lower(b)
  {
    assert |Lower(a + b)| == |Lower(a) + Lower(b)|;
    forall i | 0 <= i < |a + b| ensures Lower(a + b)[i] == (Lower(a) + Lower(b))[i] {
    }
  }

  const RigorSectionTypes: set<string> := {"methodology", "experiments", "results", "analysis", "methods"}

  /** The sections the rigor agent reviews. */
  predicate NeedsRigor(s: Section) {
    Lower(s.sectionType) in RigorSectionTypes || ContainsMath(s.content)
  }

  /** The `sections_for_rigor` comprehension. */
  function RigorSections(sections: seq<Section>): (r: seq<Section>)
    ensures |r| <= |sections|
  {
    if |sections| == 0 then []
    else
      RigorSections(sections[..|sections| - 1])
      + (if NeedsRigor(sections[|sections| - 1]) then [sections[|sections| - 1]] else [])
  }

  /** The rigor sections are exactly the sections that need rigor. */
  lemma {:induction false} RigorSectionsMembers(sections: seq<Section>, s: Section)
    ensures s in RigorSections(sections) <==> s in sections && NeedsRigor(s)
  {
    if |sections| > 0 {
      var init := sections[..|sections| - 1];
      RigorSectionsMembers(init, s);
      assert sections == init + [sections[|sections| - 1]];
    }
  }

  /** The filter keeps the input order: it maps a concatenation to the
      concatenation of its parts. */
  lemma {:induction false} RigorSectionsConcat(a: seq<Section>, b: seq<Section>)
    ensures RigorSections(a + b) == RigorSections(a) + RigorSections(b)
  {
    if |b| > 0 {
      var init := b[..|b| - 1];
      assert (a + b)[..|a + b| - 1] == a + init;
      RigorSectionsConcat(a, init);
    } else {
      assert a + b == a;
    }
  }

  /** Filtering twice is filtering once. */
  lemma {:induction false} RigorSectionsIdempotent(sections: seq<Section>)
    ensures RigorSections(RigorSections(sections)) == RigorSections(sections)
  {
    if |sections| > 0 {
      var init := sections[..|sections| - 1];
      var last := sections[|sections| - 1];
      RigorSectionsIdempotent(init);
      var tail := if NeedsRigor(last) then [last] else [];
      RigorSectionsConcat(RigorSections(init), tail);
      if NeedsRigor(last) {
        assert RigorSections(tail) == RigorSections([]) + [last];
      }
    }
  }

  /** `_orchestrator_route_node`: every section for clarity, the filtered
      ones for rigor. */
  function Route(sections: seq<Section>): (r: (seq<Section>, seq<Section>))
    ensures r.0 == sections
    ensures r.1 == RigorSections(sections)
  {
    (sections, RigorSections(sections))
  }

  /** The state after the routing node: its lists go through the reducer. */
  function ApplyRoute(s: ReviewState): ReviewState {
    var r := Route(s.sections);
    s.(sectionsForClarity := KeepFirstValue(s.sectionsForClarity, r.0),
       sectionsForRigor := KeepFirstValue(s.sectionsForRigor, r.1))
  }

  /** From the initial state, routing fills both lists with the routed
      sections and changes nothing else. */
  lemma RouteFromInitialState(sections: seq<Section>)
    ensures ApplyRoute(InitialState(sections)).sectionsForClarity == sections
    ensures ApplyRoute(InitialState(sections)).sectionsForRigor == RigorSections(sections)
    ensures ApplyRoute(InitialState(sections)).(sectionsForClarity := [], sectionsForRigor := []) == InitialState(sections)
  {
  }

  // ---------------------------------------------------------------------
  // Review nodes
  // ---------------------------------------------------------------------

  /** The entry of one reviewed section: a single group of the agent's type
      holding its items. */
  function Entry(s: Section, items: seq<SuggestionItem>, t: SuggestionType): SectionSuggestions {
    SectionSuggestions(s.title, s.lineStart, s.sectionType, [SuggestionGroup(t, |items|, items)])
  }

  /** The entries of a review node, pairing sections with their results and
      skipping sections with no suggestion. */
  function Entries(sections: seq<Section>, results: seq<seq<SuggestionItem>>, t: SuggestionType): seq<SectionSuggestions> {
    var n := if |sections| < |results| then |sections| else |results|;
    if n == 0 then []
    else
      Entries(sections[..n - 1], results[..n - 1], t)
      + (if results[n - 1] != [] then [Entry(sections[n - 1], results[n - 1], t)] else [])
  }

  /** The building loop of `_clarity_review_node` and `_rigor_review_node`:
      `results[i]` is what the agent returned for `sections[i]`. */
  method BuildSectionSuggestions(sections: seq<Section>, results: seq<seq<SuggestionItem>>, t: SuggestionType)
    returns (entries: seq<SectionSuggestions>)
    ensures entries == Entries(sections, results, t)
  {
    entries := [];
    var n := if |sections| < |results| then |sections| else |results|;
    var i := 0;
    while i < n
      invariant 0 <= i <= n
      invariant entries == Entries(sections[..i], results[..i], t)
    {
      assert sections[..i + 1][..i] == sections[..i];
      assert results[..i + 1][..i] == results[..i];
      if results[i] != [] {
        entries := entries + [Entry(sections[i], results[i], t)];
      }
      i := i + 1;
    }
    if |sections| < |results| {
      assert sections[..i] == sections;
      assert Entries(sections, results[..i], t) == Entries(sections, results, t) by {
        EntriesTruncate(sections, results, t);
      }
    } else {
      assert results[..i] == results;
      assert Entries(sections[..i], results, t) == Entries(sections, results, t) by {
        EntriesTruncate(sections, results, t);
      }
    }
  }

  /** Only the pairs `zip` forms count. */
  lemma EntriesTruncate(sections: seq<Section>, results: seq<seq<SuggestionItem>>, t: SuggestionType)
    ensures Entries(sections, results, t)
      == Entries(sections[..Min(|sections|, |results|)], results[..Min(|sections|, |results|)], t)
  {
    var n := Min(|sections|, |results|);
    if n > 0 {
      assert sections[..n][..n - 1] == sections[..n - 1];
      assert results[..n][..n - 1] == results[..n - 1];
    }
  }

  function Min(a: nat, b: nat): nat {
    if a < b then a else b
  }

  /** A review node emits one entry per section with suggestions, in section
      order; each entry has one group of the agent's type whose count is its
      number of items, and takes its name, line and type from the section. */
  lemma {:induction false} EntriesMeaning(sections: seq<Section>, results: seq<seq<SuggestionItem>>, t: SuggestionType, k: nat)
    requires k < |Entries(sections, results, t)|
    ensures exists i :: (0 <= i < |sections| && i < |results| && results[i] != []
      && Entries(sections, results, t)[k] == Entry(sections[i], results[i], t))
    ensures var e := Entries(sections, results, t)[k];
      |e.suggestions| == 1 && e.suggestions[0].groupType == t
      && e.suggestions[0].count == |e.suggestions[0].items| > 0
  {
    var n := Min(|sections|, |results|);
    var es := Entries(sections, results, t);
    var prev := Entries(sections[..n - 1], results[..n - 1], t);
    if k < |prev| {
      EntriesMeaning(sections[..n - 1], results[..n - 1], t, k);
      var i :| 0 <= i < n - 1 && results[..n - 1][i] != []
        && prev[k] == Entry(sections[..n - 1][i], results[..n - 1][i], t);
      assert es[k] == prev[k];
      assert sections[..n - 1][i] == sections[i] && results[..n - 1][i] == results[i];
    } else {
      assert es[k] == Entry(sections[n - 1], results[n - 1], t);
    }
  }

  /** There are as many entries as sections with at least one suggestion. */
  lemma {:induction false} EntriesCount(sections: seq<Section>, results: seq<seq<SuggestionItem>>, t: SuggestionType)
    requires |sections| == |results|
    ensures |Entries(sections, results, t)| == NonEmptyCount(results)
  {
    if |results| > 0 {
      var n := |results|;
      EntriesCount(sections[..n - 1], results[..n - 1], t);
    }
  }

  function NonEmptyCount(results: seq<seq<SuggestionItem>>): nat {
    if |results| == 0 then 0
    else NonEmptyCount(results[..|results| - 1]) + (if results[|results| - 1] != [] then 1 else 0)
  }

  // ---------------------------------------------------------------------
  // Merging the agents' suggestions
  // ---------------------------------------------------------------------

  function Names(entries: seq<SectionSuggestions>): (r: seq<string>)
    ensures |r| == |entries| && forall i :: 0 <= i < |entries| ==> r[i] == entries[i].section
  {
    seq(|entries|, i requires 0 <= i < |entries| => entries[i].section)
  }

  /** The first index holding `n`, if any. */
  function IndexOf(names: seq<string>, n: string): (r: Option<nat>)
    ensures r.Some? ==> r.value < |names| && names[r.value] == n && forall j :: 0 <= j < r.value ==> names[j] != n
    ensures r.None? <==> n !in names
  {
    if |names| == 0 then None
    else if names[0] == n then Some(0)
    else match IndexOf(names[1..], n)
      case Some(i) => Some(i + 1)
      case None => None
  }

  /** The entry named `n` of a list used as a dictionary. */
  function LookUp(entries: seq<SectionSuggestions>, n: string): Option<SectionSuggestions> {
    match IndexOf(Names(entries), n)
    case Some(i) => Some(entries[i])
    case None => None
  }

  /** `section_map[s.section] = s`: replace the entry of that name, or add
      it at the end. */
  function Put(entries: seq<SectionSuggestions>, s: SectionSuggestions): seq<SectionSuggestions> {
    match IndexOf(Names(entries), s.section)
    case Some(i) => entries[i := s]
    case None => entries + [s]
  }

  /** The rigor step: extend the groups of the entry of that name, or add
      the entry at the end. */
  function Extend(entries: seq<SectionSuggestions>, s: SectionSuggestions): seq<SectionSuggestions> {
    match IndexOf(Names(entries), s.section)
    case Some(i) => entries[i := entries[i].(suggestions := entries[i].suggestions + s.suggestions)]
    case None => entries + [s]
  }

  function PutAll(entries: seq<SectionSuggestions>, ss: seq<SectionSuggestions>): seq<SectionSuggestions> {
    if |ss| == 0 then entries else Put(PutAll(entries, ss[..|ss| - 1]), ss[|ss| - 1])
  }

  function ExtendAll(entries: seq<SectionSuggestions>, ss: seq<SectionSuggestions>): seq<SectionSuggestions> {
    if |ss| == 0 then entries else Extend(ExtendAll(entries, ss[..|ss| - 1]), ss[|ss| - 1])
  }

  /** What `_merge_suggestions` returns. */
  function Merge(clarity: seq<SectionSuggestions>, rigor: seq<SectionSuggestions>): seq<SectionSuggestions> {
    ExtendAll(PutAll([], clarity), rigor)
  }

  /** The last entry named `n`. */
  function LastNamed(ss: seq<SectionSuggestions>, n: string): Option<SectionSuggestions> {
    if |ss| == 0 then None
    else if ss[|ss| - 1].section == n then Some(ss[|ss| - 1])
    else LastNamed(ss[..|ss| - 1], n)
  }

  /** The first entry named `n`. */
  function FirstNamed(ss: seq<SectionSuggestions>, n: string): Option<SectionSuggestions> {
    if |ss| == 0 then None
    else match FirstNamed(ss[..|ss| - 1], n)
      case Some(f) => Some(f)
      case None => if ss[|ss| - 1].section == n then Some(ss[|ss| - 1]) else None
  }

  /** The groups of all entries named `n`, in order. */
  function GroupsNamed(ss: seq<SectionSuggestions>, n: string): seq<SuggestionGroup> {
    if |ss| == 0 then []
    else GroupsNamed(ss[..|ss| - 1], n) + (if ss[|ss| - 1].section == n then ss[|ss| - 1].suggestions else [])
  }

  lemma {:induction false} NoFirstNoGroups(ss: seq<SectionSuggestions>, n: string)
    requires FirstNamed(ss, n).None?
    ensures GroupsNamed(ss, n) == []
  {
    if |ss| > 0 {
      NoFirstNoGroups(ss[..|ss| - 1], n);
    }
  }

  lemma LookUpPut(entries: seq<SectionSuggestions>, s: SectionSuggestions, n: string)
    ensures LookUp(Put(entries, s), n) == if s.section == n then Some(s) else LookUp(entries, n)
  {
    var e := Put(entries, s);
    match IndexOf(Names(entries), s.section)
    case Some(i) =>
      assert Names(e) == Names(entries)[i := s.section];
      assert Names(e) == Names(entries);
    case None =>
      assert Names(e) == Names(entries) + [s.section];
      if s.section != n {
        IndexOfAppend(Names(entries), s.section, n);
      } else {
        IndexOfAppend(Names(entries), s.section, n);
      }
  }

  lemma LookUpExtend(entries: seq<SectionSuggestions>, s: SectionSuggestions, n: string)
    ensures LookUp(Extend(entries, s), n) ==
      if s.section != n then LookUp(entries, n)
      else match LookUp(entries, n)
        case Some(x) => Some(x.(suggestions := x.suggestions + s.suggestions))
        case None => Some(s)
  {
    var e := Extend(entries, s);
    match IndexOf(Names(entries), s.section)
    case Some(i) =>
      assert Names(e) == Names(entries);
    case None =>
      assert Names(e) == Names(entries) + [s.section];
      IndexOfAppend(Names(entries), s.section, n);
  }

  lemma IndexOfAppend(names: seq<string>, x: string, n: string)
    requires x !in names
    ensures IndexOf(names + [x], n) == if n in names then IndexOf(names, n) else if n == x then Some(|names|) else None
  {
    var r := IndexOf(names + [x], n);
    if n in names {
      var i := IndexOf(names, n).value;
      assert (names + [x])[i] == n;
    } else if n == x {
      assert (names + [x])[|names|] == n;
    }
  }

  /** After the clarity loop, each name holds the last clarity entry of that
      name. */
  lemma {:induction false} LookUpPutAll(entries: seq<SectionSuggestions>, ss: seq<SectionSuggestions>, n: string)
    ensures LookUp(PutAll(entries, ss), n) == if LastNamed(ss, n).Some? then LastNamed(ss, n) else LookUp(entries, n)
  {
    if |ss| > 0 {
      LookUpPutAll(entries, ss[..|ss| - 1], n);
      LookUpPut(PutAll(entries, ss[..|ss| - 1]), ss[|ss| - 1], n);
    }
  }

  /** After the rigor loop, a name already present holds its groups followed
      by the groups of every rigor entry of that name; a new name holds its
      first rigor entry with the groups of all its rigor entries. */
  lemma {:induction false} LookUpExtendAll(entries: seq<SectionSuggestions>, ss: seq<SectionSuggestions>, n: string)
    ensures LookUp(ExtendAll(entries, ss), n) ==
      match LookUp(entries, n)
      case Some(x) => Some(x.(suggestions := x.suggestions + GroupsNamed(ss, n)))
      case None =>
        match FirstNamed(ss, n)
        case Some(f) => Some(f.(suggestions := GroupsNamed(ss, n)))
        case None => None
  {
    if |ss| > 0 {
      var init := ss[..|ss| - 1];
      var s := ss[|ss| - 1];
      LookUpExtendAll(entries, init, n);
      LookUpExtend(ExtendAll(entries, init), s, n);
      assert GroupsNamed(ss, n) == GroupsNamed(init, n) + (if s.section == n then s.suggestions else []);
      if s.section == n {
        match LookUp(entries, n)
        case Some(x) =>
          assert x.suggestions + GroupsNamed(init, n) + s.suggestions == x.suggestions + GroupsNamed(ss, n);
        case None =>
          if FirstNamed(init, n).None? {
            NoFirstNoGroups(init, n);
            assert FirstNamed(ss, n) == Some(s);
            assert GroupsNamed(ss, n) == s.suggestions;
            assert s.(suggestions := s.suggestions) == s;
          } else {
            assert FirstNamed(ss, n) == FirstNamed(init, n);
          }
      } else {
        assert FirstNamed(ss, n) == FirstNamed(init, n);
        assert GroupsNamed(ss, n) == GroupsNamed(init, n);
      }
    } else if LookUp(entries, n).Some? {
      var x := LookUp(entries, n).value;
      assert x.suggestions + [] == x.suggestions;
    }
  }

  /** `_merge_suggestions`, per section name: a name with clarity
      suggestions keeps its last clarity entry, with the groups of every
      rigor entry of that name appended; a rigor-only name keeps its first
      rigor entry with the groups of all its rigor entries; other names are
      absent. */
  lemma MergeLookUp(clarity: seq<SectionSuggestions>, rigor: seq<SectionSuggestions>, n: string)
    ensures LookUp(Merge(clarity, rigor), n) ==
      match LastNamed(clarity, n)
      case Some(c) => Some(c.(suggestions := c.suggestions + GroupsNamed(rigor, n)))
      case None =>
        match FirstNamed(rigor, n)
        case Some(f) => Some(f.(suggestions := GroupsNamed(rigor, n)))
        case None => None
  {
    LookUpPutAll([], clarity, n);
    LookUpExtendAll(PutAll([], clarity), rigor, n);
  }

  predicate DistinctNames(entries: seq<SectionSuggestions>) {
    forall i, j :: 0 <= i < j < |entries| ==> entries[i].section != entries[j].section
  }

  lemma PutDistinct(entries: seq<SectionSuggestions>, s: SectionSuggestions)
    requires DistinctNames(entries)
    ensures DistinctNames(Put(entries, s))
    ensures |entries| <= |Put(entries, s)| && Names(Put(entries, s))[..|entries|] == Names(entries)
  {
    if IndexOf(Names(entries), s.section).None? {
      assert s.section !in Names(entries);
    }
  }

  lemma ExtendDistinct(entries: seq<SectionSuggestions>, s: SectionSuggestions)
    requires DistinctNames(entries)
    ensures DistinctNames(Extend(entries, s))
    ensures |entries| <= |Extend(entries, s)| && Names(Extend(entries, s))[..|entries|] == Names(entries)
  {
    if IndexOf(Names(entries), s.section).None? {
      assert s.section !in Names(entries);
    }
  }

  lemma {:induction false} PutAllDistinct(entries: seq<SectionSuggestions>, ss: seq<SectionSuggestions>)
    requires DistinctNames(entries)
    ensures DistinctNames(PutAll(entries, ss))
  {
    if |ss| > 0 {
      PutAllDistinct(entries, ss[..|ss| - 1]);
      PutDistinct(PutAll(entries, ss[..|ss| - 1]), ss[|ss| - 1]);
    }
  }

  lemma {:induction false} ExtendAllKeepsPrefix(entries: seq<SectionSuggestions>, ss: seq<SectionSuggestions>)
    requires DistinctNames(entries)
    ensures DistinctNames(ExtendAll(entries, ss))
    ensures |entries| <= |ExtendAll(entries, ss)| && Names(ExtendAll(entries, ss))[..|entries|] == Names(entries)
  {
    if |ss| > 0 {
      var prev := ExtendAll(entries, ss[..|ss| - 1]);
      ExtendAllKeepsPrefix(entries, ss[..|ss| - 1]);
      ExtendDistinct(prev, ss[|ss| - 1]);
      assert Names(ExtendAll(entries, ss))[..|prev|][..|entries|] == Names(ExtendAll(entries, ss))[..|entries|];
    }
  }

  /** The merged list has one entry per name, and the clarity names come
      first: an entry is among the first `|PutAll([], clarity)|` exactly
      when clarity has suggestions for its section. */
  lemma MergeOrder(clarity: seq<SectionSuggestions>, rigor: seq<SectionSuggestions>, i: nat)
    requires i < |Merge(clarity, rigor)|
    ensures DistinctNames(Merge(clarity, rigor))
    ensures i < |PutAll([], clarity)| <==> LastNamed(clarity, Merge(clarity, rigor)[i].section).Some?
  {
    var base := PutAll([], clarity);
    var m := Merge(clarity, rigor);
    PutAllDistinct([], clarity);
    ExtendAllKeepsPrefix(base, rigor);
    var n := m[i].section;
    LookUpPutAll([], clarity, n);
    if i < |base| {
      assert Names(m)[..|base|][i] == Names(base)[i];
      assert n in Names(base);
    } else {
      forall j | 0 <= j < |base| ensures Names(base)[j] != n {
        assert Names(m)[..|base|][j] == m[j].section;
      }
    }
  }

  /** `known`, followed by the names of `xs` not seen before, each at its
      first occurrence: the key order of a Python dictionary filled with
      `known` and then `xs`. */
  function AddNames(known: seq<string>, xs: seq<string>): seq<string> {
    if |xs| == 0 then known
    else
      var prev := AddNames(known, xs[..|xs| - 1]);
      if xs[|xs| - 1] in prev then prev else prev + [xs[|xs| - 1]]
  }

  lemma {:induction false} AddNamesContains(known: seq<string>, xs: seq<string>)
    ensures forall y :: y in AddNames(known, xs) <==> y in known || y in xs
  {
    if |xs| > 0 {
      AddNamesContains(known, xs[..|xs| - 1]);
      assert xs == xs[..|xs| - 1] + [xs[|xs| - 1]];
    }
  }

  lemma {:induction false} AddNamesAppend(known: seq<string>, a: seq<string>, b: seq<string>)
    ensures AddNames(known, a + b) == AddNames(AddNames(known, a), b)
  {
    if |b| == 0 {
      assert a + b == a;
    } else {
      AddNamesAppend(known, a, b[..|b| - 1]);
      assert (a + b)[..|a + b| - 1] == a + b[..|b| - 1];
    }
  }

  lemma IndexOfPrefix(p: seq<string>, q: seq<string>, y: string)
    requires y in p
    ensures IndexOf(p + q, y) == IndexOf(p, y)
  {
    var i := IndexOf(p, y).value;
    assert (p + q)[i] == y;
    var k := IndexOf(p + q, y).value;
    assert k <= i;
  }

  /** In `AddNames([], xs)` every name is one of `xs`, and the names stand in
      the order of their first occurrence in `xs`. */
  lemma {:induction false} FirstOccurrenceOrder(xs: seq<string>)
    ensures forall i :: 0 <= i < |AddNames([], xs)| ==> IndexOf(xs, AddNames([], xs)[i]).Some?
    ensures forall i, j :: 0 <= i < j < |AddNames([], xs)| ==>
      IndexOf(xs, AddNames([], xs)[i]).Some? && IndexOf(xs, AddNames([], xs)[j]).Some? &&
      IndexOf(xs, AddNames([], xs)[i]).value < IndexOf(xs, AddNames([], xs)[j]).value
  {
    if |xs| > 0 {
      var init := xs[..|xs| - 1];
      var x := xs[|xs| - 1];
      var prev := AddNames([], init);
      FirstOccurrenceOrder(init);
      AddNamesContains([], init);
      assert xs == init + [x];
      forall y | y in init ensures IndexOf(xs, y) == IndexOf(init, y) {
        IndexOfPrefix(init, [x], y);
      }
      if x !in prev {
        IndexOfAppend(init, x, x);
      }
    }
  }

  lemma NamesPut(entries: seq<SectionSuggestions>, s: SectionSuggestions)
    ensures Names(Put(entries, s)) == if s.section in Names(entries) then Names(entries) else Names(entries) + [s.section]
  {
    if IndexOf(Names(entries), s.section).Some? {
      assert Names(Put(entries, s)) == Names(entries)[IndexOf(Names(entries), s.section).value := s.section];
    }
  }

  lemma NamesExtend(entries: seq<SectionSuggestions>, s: SectionSuggestions)
    ensures Names(Extend(entries, s)) == if s.section in Names(entries) then Names(entries) else Names(entries) + [s.section]
  {
  }

  lemma {:induction false} NamesPutAll(entries: seq<SectionSuggestions>, ss: seq<SectionSuggestions>)
    ensures Names(PutAll(entries, ss)) == AddNames(Names(entries), Names(ss))
  {
    if |ss| > 0 {
      NamesPutAll(entries, ss[..|ss| - 1]);
      NamesPut(PutAll(entries, ss[..|ss| - 1]), ss[|ss| - 1]);
      assert Names(ss)[..|ss| - 1] == Names(ss[..|ss| - 1]);
    }
  }

  lemma {:induction false} NamesExtendAll(entries: seq<SectionSuggestions>, ss: seq<SectionSuggestions>)
    ensures Names(ExtendAll(entries, ss)) == AddNames(Names(entries), Names(ss))
  {
    if |ss| > 0 {
      NamesExtendAll(entries, ss[..|ss| - 1]);
      NamesExtend(ExtendAll(entries, ss[..|ss| - 1]), ss[|ss| - 1]);
      assert Names(ss)[..|ss| - 1] == Names(ss[..|ss| - 1]);
    }
  }

  /** The sections of `_merge_suggestions`' result are the distinct section
      names of the clarity and then the rigor suggestions, in order of first
      occurrence: a clarity name stands where clarity first named it, a
      rigor-only name where rigor first named it. */
  lemma MergeFirstOccurrenceOrder(clarity: seq<SectionSuggestions>, rigor: seq<SectionSuggestions>)
    ensures Names(Merge(clarity, rigor)) == AddNames([], Names(clarity + rigor))
    ensures forall n :: n in Names(Merge(clarity, rigor)) <==> n in Names(clarity + rigor)
    ensures forall i, j :: 0 <= i < j < |Merge(clarity, rigor)| ==>
      IndexOf(Names(clarity + rigor), Merge(clarity, rigor)[i].section).Some? &&
      IndexOf(Names(clarity + rigor), Merge(clarity, rigor)[j].section).Some? &&
      IndexOf(Names(clarity + rigor), Merge(clarity, rigor)[i].section).value <
      IndexOf(Names(clarity + rigor), Merge(clarity, rigor)[j].section).value
  {
    NamesPutAll([], clarity);
    NamesExtendAll(PutAll([], clarity), rigor);
    assert Names([]) == [];
    assert Names(clarity + rigor) == Names(clarity) + Names(rigor);
    AddNamesAppend([], Names(clarity), Names(rigor));
    AddNamesContains([], Names(clarity + rigor));
    FirstOccurrenceOrder(Names(clarity + rigor));
  }

  /** `_merge_suggestions`: a dictionary (its keys in insertion order and a
      map) filled by the clarity loop and then the rigor loop. */
  method MergeSuggestions(clarity: seq<SectionSuggestions>, rigor: seq<SectionSuggestions>)
    returns (merged: seq<SectionSuggestions>)
    ensures merged == Merge(clarity, rigor)
  {
    var keys: seq<string> := [];
    var sectionMap: map<string, SectionSuggestions> := map[];
    var i := 0;
    while i < |clarity|
      invariant 0 <= i <= |clarity|
      invariant DictOf(keys, sectionMap, PutAll([], clarity[..i]))
    {
      assert clarity[..i + 1][..i] == clarity[..i];
      PutStep(keys, sectionMap, PutAll([], clarity[..i]), clarity[i]);
      if clarity[i].section !in sectionMap {
        keys := keys + [clarity[i].section];
      }
      sectionMap := sectionMap[clarity[i].section := clarity[i]];
      i := i + 1;
    }
    assert clarity[..i] == clarity;
    var j := 0;
    while j < |rigor|
      invariant 0 <= j <= |rigor|
      invariant DictOf(keys, sectionMap, ExtendAll(PutAll([], clarity), rigor[..j]))
    {
      var sugg := rigor[j];
      assert rigor[..j + 1][..j] == rigor[..j];
      ExtendStep(keys, sectionMap, ExtendAll(PutAll([], clarity), rigor[..j]), sugg);
      if sugg.section in sectionMap {
        var existing := sectionMap[sugg.section];
        sectionMap := sectionMap[sugg.section := existing.(suggestions := existing.suggestions + sugg.suggestions)];
      } else {
        keys := keys + [sugg.section];
        sectionMap := sectionMap[sugg.section := sugg];
      }
      j := j + 1;
    }
    assert rigor[..j] == rigor;
    merged := seq(|keys|, k requires 0 <= k < |keys| && keys[k] in sectionMap => sectionMap[keys[k]]);
    DictValues(keys, sectionMap, Merge(clarity, rigor), merged);
  }

  /** The values of a dictionary, read in key order, are the list it
      represents. */
  lemma DictValues(keys: seq<string>, m: map<string, SectionSuggestions>, entries: seq<SectionSuggestions>, values: seq<SectionSuggestions>)
    requires DictOf(keys, m, entries)
    requires |values| == |keys| && forall k :: 0 <= k < |keys| ==> keys[k] in m && values[k] == m[keys[k]]
    ensures values == entries
  {
  }

  /** `keys` and `m` represent the list `entries`: the same names in the
      same order, each mapped to its entry. */
  ghost predicate DictOf(keys: seq<string>, m: map<string, SectionSuggestions>, entries: seq<SectionSuggestions>) {
    keys == Names(entries) && DistinctNames(entries)
    && (forall n :: n in m <==> n in keys)
    && forall k :: 0 <= k < |keys| ==> keys[k] in m && m[keys[k]] == entries[k]
  }

  lemma PutStep(keys: seq<string>, m: map<string, SectionSuggestions>, entries: seq<SectionSuggestions>, s: SectionSuggestions)
    requires DictOf(keys, m, entries)
    ensures DictOf(if s.section in m then keys else keys + [s.section], m[s.section := s], Put(entries, s))
  {
    if s.section in m {
      PutReplaces(keys, m, entries, s);
    } else {
      PutAppends(keys, m, entries, s);
    }
  }

  /** Putting an entry whose name is present replaces it in place. */
  lemma PutReplaces(keys: seq<string>, m: map<string, SectionSuggestions>, entries: seq<SectionSuggestions>, s: SectionSuggestions)
    requires DictOf(keys, m, entries) && s.section in m
    ensures DictOf(keys, m[s.section := s], Put(entries, s))
  {
    PutDistinct(entries, s);
    var i := IndexOf(keys, s.section).value;
    var e := Put(entries, s);
    assert e == entries[i := s];
    assert Names(e) == keys;
    forall k | 0 <= k < |keys| ensures m[s.section := s][keys[k]] == e[k] {
      if k != i {
        assert keys[k] != s.section;
      }
    }
  }

  /** Putting an entry whose name is absent appends it. */
  lemma PutAppends(keys: seq<string>, m: map<string, SectionSuggestions>, entries: seq<SectionSuggestions>, s: SectionSuggestions)
    requires DictOf(keys, m, entries) && s.section !in m
    ensures DictOf(keys + [s.section], m[s.section := s], Put(entries, s))
  {
    PutDistinct(entries, s);
    var e := Put(entries, s);
    assert s.section !in keys;
    assert e == entries + [s];
    assert Names(e) == keys + [s.section];
  }

  lemma ExtendStep(keys: seq<string>, m: map<string, SectionSuggestions>, entries: seq<SectionSuggestions>, s: SectionSuggestions)
    requires DictOf(keys, m, entries)
    ensures s.section in m ==> DictOf(keys, m[s.section := m[s.section].(suggestions := m[s.section].suggestions + s.suggestions)], Extend(entries, s))
    ensures s.section !in m ==> DictOf(keys + [s.section], m[s.section := s], Extend(entries, s))
  {
    if s.section in m {
      ExtendMerges(keys, m, entries, s);
    } else {
      ExtendAppends(keys, m, entries, s);
    }
  }

  /** Extending an entry whose name is present appends to its groups. */
  lemma ExtendMerges(keys: seq<string>, m: map<string, SectionSuggestions>, entries: seq<SectionSuggestions>, s: SectionSuggestions)
    requires DictOf(keys, m, entries) && s.section in m
    ensures DictOf(keys, m[s.section := m[s.section].(suggestions := m[s.section].suggestions + s.suggestions)], Extend(entries, s))
  {
    ExtendDistinct(entries, s);
    var i := IndexOf(keys, s.section).value;
    var merged := m[s.section].(suggestions := m[s.section].suggestions + s.suggestions);
    var e := Extend(entries, s);
    assert m[s.section] == entries[i];
    assert e == entries[i := merged];
    assert Names(e) == keys;
    forall k | 0 <= k < |keys| ensures m[s.section := merged][keys[k]] == e[k] {
      if k != i {
        assert keys[k] != s.section;
      }
    }
  }

  /** Extending with an entry whose name is absent appends it. */
  lemma ExtendAppends(keys: seq<string>, m: map<string, SectionSuggestions>, entries: seq<SectionSuggestions>, s: SectionSuggestions)
    requires DictOf(keys, m, entries) && s.section !in m
    ensures DictOf(keys + [s.section], m[s.section := s], Extend(entries, s))
  {
    ExtendDistinct(entries, s);
    var e := Extend(entries, s);
    assert s.section !in keys;
    assert e == entries + [s];
    assert Names(e) == keys + [s.section];
  }

  /** `_orchestrator_finalize_node`: the merged suggestions, orchestrated
      section by section. */
  method FinalizeNode(clarity: seq<SectionSuggestions>, rigor: seq<SectionSuggestions>, respond: Responder)
    returns (finals: seq<SectionSuggestions>)
    ensures finals == ValidateAndPrioritize(Merge(clarity, rigor), respond)
    ensures |finals| == |Merge(clarity, rigor)|
  {
    var combined := MergeSuggestions(clarity, rigor);
    finals := ValidateAndPrioritize(combined, respond);
  }

  // ---------------------------------------------------------------------
  // The graph
  // ---------------------------------------------------------------------

  datatype Node = OrchestratorRoute | ClarityRag | ClarityReview | RigorRag | RigorReview | OrchestratorFinalize | End

  /** A compiled graph: its entry point, its nodes and its edges. */
  datatype Workflow = Workflow(entry: Node, nodes: set<Node>, edges: set<(Node, Node)>)

  /** The position of a node along every path. */
  function Stage(n: Node): nat {
    match n
    case OrchestratorRoute => 0
    case ClarityRag => 1
    case RigorRag => 1
    case ClarityReview => 2
    case RigorReview => 2
    case OrchestratorFinalize => 3
    case End => 4
  }

  /** Every edge joins two nodes of the graph (or ends at END) and moves to
      a later stage; every node but END has a way out and every node but
      the entry a way in. */
  predicate WellFormed(w: Workflow) {
    w.entry in w.nodes && End !in w.nodes
    && (forall e :: e in w.edges ==> e.0 in w.nodes && (e.1 in w.nodes || e.1 == End) && Stage(e.0) < Stage(e.1))
    && (forall n {:trigger HasExit(w, n)} :: n in w.nodes ==> HasExit(w, n))
    && (forall n {:trigger HasEntry(w, n)} :: n in w.nodes && n != w.entry ==> HasEntry(w, n))
  }

  /** Some edge leaves `n`. */
  predicate HasExit(w: Workflow, n: Node) {
    exists e :: e in w.edges && e.0 == n
  }

  /** Some edge enters `n`. */
  predicate HasEntry(w: Workflow, n: Node) {
    exists e :: e in w.edges && e.1 == n
  }

  /** `_build_workflow`: the nodes and edges added for the selected agents. */
  method BuildWorkflow(agents: seq<string>, useRag: bool) returns (w: Workflow)
    ensures BuiltFor(w, "clarity" in agents, "rigor" in agents, useRag)
    ensures ClarityReview in w.nodes <==> "clarity" in agents
    ensures RigorReview in w.nodes <==> "rigor" in agents
  {
    var nodes: set<Node> := {OrchestratorRoute};
    var edges: set<(Node, Node)> := {};
    var runClarity := "clarity" in agents;
    var runRigor := "rigor" in agents;
    if runClarity {
      if useRag {
        nodes := nodes + {ClarityRag};
      }
      nodes := nodes + {ClarityReview};
    }
    if runRigor {
      if useRag {
        nodes := nodes + {RigorRag};
      }
      nodes := nodes + {RigorReview};
    }
    nodes := nodes + {OrchestratorFinalize};
    if runClarity {
      if useRag {
        edges := edges + {(OrchestratorRoute, ClarityRag)};
        edges := edges + {(ClarityRag, ClarityReview)};
      } else {
        edges := edges + {(OrchestratorRoute, ClarityReview)};
      }
      edges := edges + {(ClarityReview, OrchestratorFinalize)};
    }
    if runRigor {
      if useRag {
        edges := edges + {(OrchestratorRoute, RigorRag)};
        edges := edges + {(RigorRag, RigorReview)};
      } else {
        edges := edges + {(OrchestratorRoute, RigorReview)};
      }
      edges := edges + {(RigorReview, OrchestratorFinalize)};
    }
    if !runClarity && !runRigor {
      edges := edges + {(OrchestratorRoute, OrchestratorFinalize)};
    }
    edges := edges + {(OrchestratorFinalize, End)};
    w := Workflow(OrchestratorRoute, nodes, edges);
  }

  /** The nodes `_build_workflow` adds for these choices. */
  predicate IsBuiltNode(n: Node, c: bool, r: bool, useRag: bool) {
    match n
    case OrchestratorRoute => true
    case OrchestratorFinalize => true
    case ClarityRag => c && useRag
    case ClarityReview => c
    case RigorRag => r && useRag
    case RigorReview => r
    case End => false
  }

  /** The edges `_build_workflow` adds for these choices. */
  predicate IsBuiltEdge(e: (Node, Node), c: bool, r: bool, useRag: bool) {
    || (e == (OrchestratorRoute, ClarityRag) && c && useRag)
    || (e == (ClarityRag, ClarityReview) && c && useRag)
    || (e == (OrchestratorRoute, ClarityReview) && c && !useRag)
    || (e == (ClarityReview, OrchestratorFinalize) && c)
    || (e == (OrchestratorRoute, RigorRag) && r && useRag)
    || (e == (RigorRag, RigorReview) && r && useRag)
    || (e == (OrchestratorRoute, RigorReview) && r && !useRag)
    || (e == (RigorReview, OrchestratorFinalize) && r)
    || (e == (OrchestratorRoute, OrchestratorFinalize) && !c && !r)
    || e == (OrchestratorFinalize, End)
  }

  /** A graph is the one built for these choices. */
  ghost predicate BuiltFor(w: Workflow, c: bool, r: bool, useRag: bool) {
    w.entry == OrchestratorRoute
    && (forall n :: n in w.nodes <==> IsBuiltNode(n, c, r, useRag))
    && (forall e :: e in w.edges <==> IsBuiltEdge(e, c, r, useRag))
  }

  /** The built graph enters at the routing node and always ends with
      finalize -> END; each selected agent runs route -> [its RAG node ->]
      its review -> finalize, its RAG node present exactly when RAG is on;
      route goes straight to finalize exactly when no agent is selected; and
      the graph is well formed. */
  lemma BuiltWorkflowShape(w: Workflow, c: bool, r: bool, useRag: bool)
    requires BuiltFor(w, c, r, useRag)
    ensures WellFormed(w)
    ensures (OrchestratorFinalize, End) in w.edges
    ensures ClarityRag in w.nodes <==> c && useRag
    ensures RigorRag in w.nodes <==> r && useRag
    ensures (OrchestratorRoute, OrchestratorFinalize) in w.edges <==> !c && !r
    ensures c ==> (ClarityReview, OrchestratorFinalize) in w.edges
    ensures c && useRag ==> (OrchestratorRoute, ClarityRag) in w.edges && (ClarityRag, ClarityReview) in w.edges
    ensures c && !useRag ==> (OrchestratorRoute, ClarityReview) in w.edges
    ensures r ==> (RigorReview, OrchestratorFinalize) in w.edges
    ensures r && useRag ==> (OrchestratorRoute, RigorRag) in w.edges && (RigorRag, RigorReview) in w.edges
    ensures r && !useRag ==> (OrchestratorRoute, RigorReview) in w.edges
  {
    BuiltEdgesMoveForward(w, c, r, useRag);
    BuiltNodesHaveExits(w, c, r, useRag);
    BuiltNodesHaveEntries(w, c, r, useRag);
    BuiltEdgeMembership(w, c, r, useRag);
  }

  lemma BuiltEdgeMembership(w: Workflow, c: bool, r: bool, useRag: bool)
    requires BuiltFor(w, c, r, useRag)
    ensures w.entry in w.nodes && End !in w.nodes
    ensures (OrchestratorFinalize, End) in w.edges
    ensures ClarityRag in w.nodes <==> c && useRag
    ensures RigorRag in w.nodes <==> r && useRag
    ensures (OrchestratorRoute, OrchestratorFinalize) in w.edges <==> !c && !r
    ensures c ==> (ClarityReview, OrchestratorFinalize) in w.edges
    ensures c && useRag ==> (OrchestratorRoute, ClarityRag) in w.edges && (ClarityRag, ClarityReview) in w.edges
    ensures c && !useRag ==> (OrchestratorRoute, ClarityReview) in w.edges
    ensures r ==> (RigorReview, OrchestratorFinalize) in w.edges
    ensures r && useRag ==> (OrchestratorRoute, RigorRag) in w.edges && (RigorRag, RigorReview) in w.edges
    ensures r && !useRag ==> (OrchestratorRoute, RigorReview) in w.edges
  {
    assert IsBuiltNode(w.entry, c, r, useRag);
    assert IsBuiltEdge((OrchestratorFinalize, End), c, r, useRag);
  }

  lemma BuiltEdgesMoveForward(w: Workflow, c: bool, r: bool, useRag: bool)
    requires BuiltFor(w, c, r, useRag)
    ensures forall e :: e in w.edges ==> e.0 in w.nodes && (e.1 in w.nodes || e.1 == End) && Stage(e.0) < Stage(e.1)
  {
    forall e | e in w.edges
      ensures e.0 in w.nodes && (e.1 in w.nodes || e.1 == End) && Stage(e.0) < Stage(e.1)
    {
      assert IsBuiltEdge(e, c, r, useRag);
    }
  }

  lemma BuiltNodesHaveExits(w: Workflow, c: bool, r: bool, useRag: bool)
    requires BuiltFor(w, c, r, useRag)
    ensures forall n {:trigger HasExit(w, n)} :: n in w.nodes ==> HasExit(w, n)
  {
    forall n | n in w.nodes ensures HasExit(w, n) {
      assert IsBuiltEdge((n, Next(n, c, r, useRag)), c, r, useRag);
      assert (n, Next(n, c, r, useRag)) in w.edges;
    }
  }

  lemma BuiltNodesHaveEntries(w: Workflow, c: bool, r: bool, useRag: bool)
    requires BuiltFor(w, c, r, useRag)
    ensures forall n {:trigger HasEntry(w, n)} :: n in w.nodes && n != w.entry ==> HasEntry(w, n)
  {
    forall n | n in w.nodes && n != w.entry ensures HasEntry(w, n) {
      assert IsBuiltEdge((Previous(n, c, r, useRag), n), c, r, useRag);
      assert (Previous(n, c, r, useRag), n) in w.edges;
    }
  }

  /** A node that follows `n` in the graph built for these choices. */
  function Next(n: Node, runClarity: bool, runRigor: bool, useRag: bool): Node {
    match n
    case OrchestratorRoute =>
      if runClarity then (if useRag then ClarityRag else ClarityReview)
      else if runRigor then (if useRag then RigorRag else RigorReview)
      else OrchestratorFinalize
    case ClarityRag => ClarityReview
    case RigorRag => RigorReview
    case ClarityReview => OrchestratorFinalize
    case RigorReview => OrchestratorFinalize
    case OrchestratorFinalize => End
    case End => End
  }

  /** A node that precedes `n` in the graph built for these choices. */
  function Previous(n: Node, runClarity: bool, runRigor: bool, useRag: bool): Node {
    match n
    case ClarityRag => OrchestratorRoute
    case RigorRag => OrchestratorRoute
    case ClarityReview => if useRag then ClarityRag else OrchestratorRoute
    case RigorReview => if useRag then RigorRag else OrchestratorRoute
    case OrchestratorFinalize =>
      if runClarity then ClarityReview else if runRigor then RigorReview else OrchestratorRoute
    case _ => OrchestratorRoute
  }

  /** `a` reaches `b` in at most `k` edges. */
  predicate Reaches(w: Workflow, a: Node, b: Node, k: nat)
    decreases k
  {
    a == b || (k > 0 && exists e :: e in w.edges && e.0 == a && Reaches(w, e.1, b, k - 1))
  }

  /** In a well-formed graph every node runs to END, through at most as
      many edges as stages remain. */
  lemma {:induction false} EveryNodeReachesEnd(w: Workflow, n: Node)
    requires WellFormed(w) && n in w.nodes
    ensures Reaches(w, n, End, Stage(End) - Stage(n))
    decreases Stage(End) - Stage(n)
  {
    assert HasExit(w, n);
    var e :| e in w.edges && e.0 == n;
    var m := e.1;
    var k := Stage(End) - Stage(n);
    assert Stage(n) < Stage(m) <= Stage(End);
    if m != End {
      EveryNodeReachesEnd(w, m);
      ReachesMore(w, m, End, Stage(End) - Stage(m), k - 1);
    }
    assert Reaches(w, m, End, k - 1);
    ReachesByEdge(w, e, End, k);
  }

  /** Taking one edge and then reaching `b` reaches `b`. */
  lemma ReachesByEdge(w: Workflow, e: (Node, Node), b: Node, k: nat)
    requires e in w.edges && k > 0 && Reaches(w, e.1, b, k - 1)
    ensures Reaches(w, e.0, b, k)
  {
  }

  lemma {:induction false} ReachesMore(w: Workflow, a: Node, b: Node, k: nat, k': nat)
    requires Reaches(w, a, b, k) && k <= k'
    ensures Reaches(w, a, b, k')
    decreases k
  {
    if a != b {
      var e :| e in w.edges && e.0 == a && Reaches(w, e.1, b, k - 1);
      ReachesMore(w, e.1, b, k - 1, k' - 1);
    }
  }

  /** Reaching `e.0` and then taking the edge `e` reaches `e.1`. */
  lemma {:induction false} ReachesThenEdge(w: Workflow, a: Node, e: (Node, Node), k: nat)
    requires e in w.edges && Reaches(w, a, e.0, k)
    ensures Reaches(w, a, e.1, k + 1)
    decreases k
  {
    if a == e.0 {
      ReachesByEdge(w, e, e.1, k + 1);
    } else {
      var f :| f in w.edges && f.0 == a && Reaches(w, f.1, e.0, k - 1);
      ReachesThenEdge(w, f.1, e, k - 1);
      ReachesByEdge(w, f, e.1, k + 1);
    }
  }

  /** In a well-formed graph every node is reached from the entry, through
      at most as many edges as its stage. */
  lemma {:induction false} EveryNodeReachedFromEntry(w: Workflow, n: Node)
    requires WellFormed(w) && n in w.nodes
    ensures Reaches(w, w.entry, n, Stage(n))
    decreases Stage(n)
  {
    if n != w.entry {
      assert HasEntry(w, n);
      var e :| e in w.edges && e.1 == n;
      var m := e.0;
      EveryNodeReachedFromEntry(w, m);
      ReachesMore(w, w.entry, m, Stage(m), Stage(n) - 1);
      ReachesThenEdge(w, w.entry, e, Stage(n) - 1);
    }
  }

  /** Every node of a built graph lies on a run from the entry to END. */
  lemma BuiltWorkflowRuns(w: Workflow, n: Node)
    requires WellFormed(w) && w.entry == OrchestratorRoute && n in w.nodes
    ensures Reaches(w, OrchestratorRoute, n, 4)
    ensures Reaches(w, n, End, 4)
    ensures n == OrchestratorRoute || exists e :: e in w.edges && e.0 in w.nodes && e.1 == n
  {
    EveryNodeReachedFromEntry(w, n);
    ReachesMore(w, OrchestratorRoute, n, Stage(n), 4);
    EveryNodeReachesEnd(w, n);
    ReachesMore(w, n, End, Stage(End) - Stage(n), 4);
    if n != OrchestratorRoute {
      assert HasEntry(w, n);
      var e :| e in w.edges && e.1 == n;
    }
  }
}
