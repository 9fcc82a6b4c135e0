/** The orchestrator's deterministic part: ordering the items of each group
    by score, flattening a section's groups for the language model,
    regrouping the model's answer by agent, and choosing between those per
    section. The model's answer is an input: `respond` stands for the
    structured call, `Failure` for any exception it raises. */
module Orchestrator {
  import opened Wrappers
  import opened Schemas
  import opened Severity
  import opened Sequences

  // ---------------------------------------------------------------------
  // Ordering by score
  // ---------------------------------------------------------------------

  /** The sort key of an item: its score, a missing score counting as 0. */
  function SortKey(it: SuggestionItem): real {
    if it.severityScore.Some? then it.severityScore.value else 0.0
  }

  predicate SortedDesc(s: seq<SuggestionItem>) {
    forall i, j :: 0 <= i < j < |s| ==> SortKey(s[i]) >= SortKey(s[j])
  }

  /** Every item of `s` has a key of at least `b`. */
  predicate KeyAtLeast(s: seq<SuggestionItem>, b: real) {
    forall i :: 0 <= i < |s| ==> SortKey(s[i]) >= b
  }

  /** `m` placed after every item of `sorted` whose key is at least its own. */
  function InsertDesc(sorted: seq<SuggestionItem>, m: SuggestionItem): (r: seq<SuggestionItem>)
    ensures |r| == |sorted| + 1
    ensures multiset(r) == multiset(sorted) + multiset{m}
  {
    if |sorted| == 0 then [m]
    else if SortKey(sorted[|sorted| - 1]) >= SortKey(m) then sorted + [m]
    else
      var init := sorted[..|sorted| - 1];
      assert sorted == init + [sorted[|sorted| - 1]];
      InsertDesc(init, m) + [sorted[|sorted| - 1]]
  }

  /** Python's stable `sort(key=score or 0, reverse=True)`, as an insertion
      sort over the items in their original order. */
  function SortDesc(s: seq<SuggestionItem>): (r: seq<SuggestionItem>)
    ensures |r| == |s|
    ensures multiset(r) == multiset(s)
  {
    if |s| == 0 then []
    else
      var init := s[..|s| - 1];
      assert s == init + [s[|s| - 1]];
      InsertDesc(SortDesc(init), s[|s| - 1])
  }

  lemma {:induction false} InsertKeepsKeyBound(sorted: seq<SuggestionItem>, m: SuggestionItem, b: real)
    requires KeyAtLeast(sorted, b) && SortKey(m) >= b
    ensures KeyAtLeast(InsertDesc(sorted, m), b)
  {
    var r := InsertDesc(sorted, m);
    forall i | 0 <= i < |r| ensures SortKey(r[i]) >= b {
      assert r[i] in multiset(r);
      assert r[i] in multiset(sorted) || r[i] == m;
    }
  }

  lemma {:induction false} InsertDescSorted(sorted: seq<SuggestionItem>, m: SuggestionItem)
    requires SortedDesc(sorted)
    ensures SortedDesc(InsertDesc(sorted, m))
    decreases |sorted|
  {
    if |sorted| > 0 && SortKey(sorted[|sorted| - 1]) < SortKey(m) {
      var init := sorted[..|sorted| - 1];
      var last := sorted[|sorted| - 1];
      InsertDescSorted(init, m);
      assert KeyAtLeast(init, SortKey(last));
      InsertKeepsKeyBound(init, m, SortKey(last));
    }
  }

  /** The result of `SortDesc` is ordered by non-increasing key. */
  lemma {:induction false} SortDescSorted(s: seq<SuggestionItem>)
    ensures SortedDesc(SortDesc(s))
  {
    if |s| > 0 {
      SortDescSorted(s[..|s| - 1]);
      InsertDescSorted(SortDesc(s[..|s| - 1]), s[|s| - 1]);
    }
  }

  /** The items of `s` whose key is `v`, in order. */
  function WithKey(s: seq<SuggestionItem>, v: real): (r: seq<SuggestionItem>)
    ensures |r| <= |s|
  {
    if |s| == 0 then []
    else WithKey(s[..|s| - 1], v) + (if SortKey(s[|s| - 1]) == v then [s[|s| - 1]] else [])
  }

  lemma WithKeyAppend(s: seq<SuggestionItem>, x: SuggestionItem, v: real)
    ensures WithKey(s + [x], v) == WithKey(s, v) + (if SortKey(x) == v then [x] else [])
  {
    assert (s + [x])[..|s|] == s;
  }

  lemma {:induction false} InsertDescStable(sorted: seq<SuggestionItem>, m: SuggestionItem, v: real)
    ensures WithKey(InsertDesc(sorted, m), v) == WithKey(sorted, v) + (if SortKey(m) == v then [m] else [])
    decreases |sorted|
  {
    if |sorted| == 0 {
      WithKeyAppend([], m, v);
    } else if SortKey(sorted[|sorted| - 1]) >= SortKey(m) {
      WithKeyAppend(sorted, m, v);
    } else {
      var init := sorted[..|sorted| - 1];
      var last := sorted[|sorted| - 1];
      assert sorted == init + [last];
      assert InsertDesc(sorted, m) == InsertDesc(init, m) + [last];
      InsertDescStable(init, m, v);
      WithKeyAppend(InsertDesc(init, m), last, v);
      WithKeyAppend(init, last, v);
    }
  }

  /** The sort is stable: the items sharing any one key keep their relative
      order. */
  lemma {:induction false} SortDescStable(s: seq<SuggestionItem>, v: real)
    ensures WithKey(SortDesc(s), v) == WithKey(s, v)
  {
    if |s| > 0 {
      SortDescStable(s[..|s| - 1], v);
      InsertDescStable(SortDesc(s[..|s| - 1]), s[|s| - 1], v);
    }
  }

  /** The group with its items ordered by score. */
  function SortGroup(g: SuggestionGroup): (r: SuggestionGroup)
    ensures r.groupType == g.groupType && r.count == g.count
    ensures multiset(r.items) == multiset(g.items)
  {
    g.(items := SortDesc(g.items))
  }

  /** What `_sort_by_severity_score` leaves in a section. */
  function SortedSection(ss: SectionSuggestions): (r: SectionSuggestions)
    ensures r.section == ss.section && r.line == ss.line && r.sectionType == ss.sectionType
    ensures |r.suggestions| == |ss.suggestions|
  {
    ss.(suggestions := seq(|ss.suggestions|, i requires 0 <= i < |ss.suggestions| => SortGroup(ss.suggestions[i])))
  }

  /** `_sort_by_severity_score`: the loop over the groups, each reordered by
      descending score. */
  method SortBySeverityScore(ss: SectionSuggestions) returns (r: SectionSuggestions)
    ensures r == SortedSection(ss)
  {
    var groups := ss.suggestions;
    var i := 0;
    while i < |groups|
      invariant 0 <= i <= |groups| && |groups| == |ss.suggestions|
      invariant forall k :: 0 <= k < i ==> groups[k] == SortGroup(ss.suggestions[k])
      invariant forall k :: i <= k < |groups| ==> groups[k] == ss.suggestions[k]
    {
      var g := groups[i];
      var sorted := g.(items := SortDesc(g.items));
      assert sorted == SortGroup(ss.suggestions[i]);
      groups := groups[i := sorted];
      i := i + 1;
    }
    assert groups == SortedSection(ss).suggestions;
    r := ss.(suggestions := groups);
  }

  /** Sorting keeps each group's type, count and items, orders its items by
      non-increasing score and keeps items with equal scores in order. */
  lemma SortedSectionMeaning(ss: SectionSuggestions, i: nat, v: real)
    requires i < |ss.suggestions|
    ensures var g := SortedSection(ss).suggestions[i];
      g.groupType == ss.suggestions[i].groupType && g.count == ss.suggestions[i].count
      && multiset(g.items) == multiset(ss.suggestions[i].items)
      && SortedDesc(g.items)
      && WithKey(g.items, v) == WithKey(ss.suggestions[i].items, v)
  {
    SortDescSorted(ss.suggestions[i].items);
    SortDescStable(ss.suggestions[i].items, v);
  }

  // ---------------------------------------------------------------------
  // Flattening
  // ---------------------------------------------------------------------

  /** One suggestion as it is shown to the model, with its agent. */
  datatype FlatSuggestion = FlatSuggestion(
    agent: SuggestionType,
    issue: string,
    line: int,
    severityScore: real,
    explanation: string,
    suggestedFix: string)

  /** An item flattened: a missing or zero score becomes 0.5, a missing or
      empty explanation or fix becomes "". */
  function Flat(t: SuggestionType, it: SuggestionItem): (f: FlatSuggestion)
    ensures f.agent == t && f.issue == it.text && f.line == it.line
    ensures f.severityScore == (if it.severityScore.None? || it.severityScore.value == 0.0 then 0.5 else it.severityScore.value)
    ensures f.explanation == (if it.explanation.Some? then it.explanation.value else "")
    ensures f.suggestedFix == (if it.suggestedFix.Some? then it.suggestedFix.value else "")
  {
    FlatSuggestion(
      t, it.text, it.line,
      if it.severityScore.Some? && it.severityScore.value != 0.0 then it.severityScore.value else 0.5,
      if it.explanation.Some? && it.explanation.value != "" then it.explanation.value else "",
      if it.suggestedFix.Some? && it.suggestedFix.value != "" then it.suggestedFix.value else "")
  }

  function FlatGroup(g: SuggestionGroup): (r: seq<FlatSuggestion>)
    ensures |r| == |g.items|
    ensures forall k :: 0 <= k < |g.items| ==> r[k] == Flat(g.groupType, g.items[k])
  {
    seq(|g.items|, k requires 0 <= k < |g.items| => Flat(g.groupType, g.items[k]))
  }

  /** All items of all groups, group by group. */
  function Flatten(groups: seq<SuggestionGroup>): seq<FlatSuggestion> {
    if |groups| == 0 then []
    else Flatten(groups[..|groups| - 1]) + FlatGroup(groups[|groups| - 1])
  }

  /** The number of items over all groups. */
  function TotalItems(groups: seq<SuggestionGroup>): nat {
    if |groups| == 0 then 0
    else TotalItems(groups[..|groups| - 1]) + |groups[|groups| - 1].items|
  }

  /** There is one flattened suggestion per item. */
  lemma {:induction false} FlattenLength(groups: seq<SuggestionGroup>)
    ensures |Flatten(groups)| == TotalItems(groups)
  {
    if |groups| > 0 {
      FlattenLength(groups[..|groups| - 1]);
    }
  }

  /** The flattening loop of `_orchestrate_section`. */
  method FlattenSuggestions(groups: seq<SuggestionGroup>) returns (all: seq<FlatSuggestion>)
    ensures all == Flatten(groups)
  {
    all := [];
    var i := 0;
    while i < |groups|
      invariant 0 <= i <= |groups|
      invariant all == Flatten(groups[..i])
    {
      var g := groups[i];
      var j := 0;
      while j < |g.items|
        invariant 0 <= j <= |g.items|
        invariant all == Flatten(groups[..i]) + FlatGroup(g)[..j]
      {
        all := all + [Flat(g.groupType, g.items[j])];
        assert FlatGroup(g)[..j + 1] == FlatGroup(g)[..j] + [Flat(g.groupType, g.items[j])];
        j := j + 1;
      }
      assert groups[..i + 1][..i] == groups[..i];
      assert FlatGroup(g)[..j] == FlatGroup(g);
      i := i + 1;
    }
    assert groups[..i] == groups;
  }

  /** No group, or only empty groups. */
  predicate NothingToOrchestrate(groups: seq<SuggestionGroup>) {
    forall i :: 0 <= i < |groups| ==> |groups[i].items| == 0
  }

  /** Without any item there is nothing to flatten. */
  lemma {:induction false} NothingFlattensToNothing(groups: seq<SuggestionGroup>)
    ensures NothingToOrchestrate(groups) <==> TotalItems(groups) == 0
  {
    if |groups| > 0 {
      NothingFlattensToNothing(groups[..|groups| - 1]);
      assert forall i :: 0 <= i < |groups| - 1 ==> groups[..|groups| - 1][i] == groups[i];
    }
  }

  // ---------------------------------------------------------------------
  // Regrouping the model's answer
  // ---------------------------------------------------------------------

  /** The group an orchestrated suggestion goes to: its first source agent,
      CLARITY when it has none or the name is not a suggestion type. */
  function PrimaryType(o: OrchestratedSuggestion): (t: SuggestionType)
    ensures |o.agentSources| > 0 && ParseSuggestionType(o.agentSources[0]).Some? ==>
      TypeValue(t) == o.agentSources[0]
    ensures |o.agentSources| == 0 || ParseSuggestionType(o.agentSources[0]).None? ==> t == Clarity
  {
    if |o.agentSources| == 0 then Clarity
    else match ParseSuggestionType(o.agentSources[0])
      case Some(t) => t
      case None => Clarity
  }

  /** The item an orchestrated suggestion becomes: its level comes from its
      score. */
  function RebuiltItem(o: OrchestratedSuggestion): (it: SuggestionItem)
    ensures it.text == o.issue && it.line == o.line
    ensures it.severityScore == Some(o.severityScore)
    ensures it.severity == ScoreToSeverityLevel(o.severityScore)
    ensures it.explanation == Some(o.explanation) && it.suggestedFix == Some(o.suggestedFix)
  {
    SuggestionItem(o.issue, o.line, ScoreToSeverityLevel(o.severityScore), Some(o.severityScore),
      Some(o.explanation), Some(o.suggestedFix))
  }

  /** The group types in order of first appearance. */
  function TypeOrder(os: seq<OrchestratedSuggestion>): seq<SuggestionType> {
    if |os| == 0 then []
    else
      var prev := TypeOrder(os[..|os| - 1]);
      if PrimaryType(os[|os| - 1]) in prev then prev else prev + [PrimaryType(os[|os| - 1])]
  }

  /** The items of the suggestions of type `t`, in the model's order. */
  function ItemsOf(os: seq<OrchestratedSuggestion>, t: SuggestionType): seq<SuggestionItem> {
    if |os| == 0 then []
    else ItemsOf(os[..|os| - 1], t) + (if PrimaryType(os[|os| - 1]) == t then [RebuiltItem(os[|os| - 1])] else [])
  }

  /** The rebuilt groups: one per type in order of first appearance, its
      count the number of its items, its items ordered by score. */
  function RebuildGroups(os: seq<OrchestratedSuggestion>): (r: seq<SuggestionGroup>)
    ensures |r| == |TypeOrder(os)|
  {
    var order := TypeOrder(os);
    seq(|order|, i requires 0 <= i < |order| =>
      SuggestionGroup(order[i], |ItemsOf(os, order[i])|, SortDesc(ItemsOf(os, order[i]))))
  }

  /** What `_rebuild_section_suggestions` returns. */
  function Rebuild(original: SectionSuggestions, os: seq<OrchestratedSuggestion>): SectionSuggestions {
    SectionSuggestions(original.section, original.line, original.sectionType, RebuildGroups(os))
  }

  predicate Distinct<T(==)>(s: seq<T>) {
    forall i, j :: 0 <= i < j < |s| ==> s[i] != s[j]
  }

  /** Each type is listed at most once. */
  lemma {:induction false} TypeOrderDistinct(os: seq<OrchestratedSuggestion>)
    ensures Distinct(TypeOrder(os))
  {
    if |os| > 0 {
      TypeOrderDistinct(os[..|os| - 1]);
    }
  }

  /** A type is listed exactly when some suggestion goes to it. */
  lemma {:induction false} TypeOrderComplete(os: seq<OrchestratedSuggestion>, t: SuggestionType)
    ensures t in TypeOrder(os) <==> exists k :: 0 <= k < |os| && PrimaryType(os[k]) == t
  {
    if |os| > 0 {
      var init := os[..|os| - 1];
      var last := os[|os| - 1];
      TypeOrderComplete(init, t);
      if t in TypeOrder(init) {
        var k :| 0 <= k < |init| && PrimaryType(init[k]) == t;
        assert os[k] == init[k];
      } else if t in TypeOrder(os) {
        assert PrimaryType(last) == t;
      }
      if exists k :: 0 <= k < |os| && PrimaryType(os[k]) == t {
        var k :| 0 <= k < |os| && PrimaryType(os[k]) == t;
        if k < |os| - 1 {
          assert init[k] == os[k];
        }
      }
    }
  }

  /** A listed type has at least one item; any other type has none. */
  lemma {:induction false} TypeOrderItems(os: seq<OrchestratedSuggestion>, t: SuggestionType)
    ensures t in TypeOrder(os) <==> ItemsOf(os, t) != []
  {
    if |os| > 0 {
      TypeOrderItems(os[..|os| - 1], t);
    }
  }

  /** `_rebuild_section_suggestions`: the suggestions grouped by primary
      agent, then one group per type with its items sorted. */
  method RebuildSectionSuggestions(original: SectionSuggestions, os: seq<OrchestratedSuggestion>)
    returns (r: SectionSuggestions)
    ensures r == Rebuild(original, os)
  {
    var order, grouped := GroupByPrimaryAgent(os);
    var groups: seq<SuggestionGroup> := [];
    var j := 0;
    while j < |order|
      invariant 0 <= j <= |order|
      invariant groups == RebuildGroups(os)[..j]
    {
      var t := order[j];
      var items := grouped[t];
      TypeOrderItems(os, t);
      if items != [] {
        var g := SuggestionGroup(t, |items|, SortDesc(items));
        assert g == RebuildGroups(os)[j];
        TakeOneMore(RebuildGroups(os), j);
        groups := groups + [g];
      } else {
        assert false;
      }
      j := j + 1;
    }
    assert RebuildGroups(os)[..j] == RebuildGroups(os);
    r := SectionSuggestions(original.section, original.line, original.sectionType, groups);
  }

  /** The grouping loop of `_rebuild_section_suggestions`: the types in order
      of first appearance, and each type's items in the model's order. */
  method GroupByPrimaryAgent(os: seq<OrchestratedSuggestion>)
    returns (order: seq<SuggestionType>, grouped: map<SuggestionType, seq<SuggestionItem>>)
    ensures order == TypeOrder(os)
    ensures forall t :: t in grouped <==> t in order
    ensures forall t :: t in grouped ==> grouped[t] == ItemsOf(os, t)
  {
    order := [];
    grouped := map[];
    var i := 0;
    while i < |os|
      invariant 0 <= i <= |os|
      invariant order == TypeOrder(os[..i])
      invariant forall t :: t in grouped <==> t in order
      invariant forall t :: t in grouped ==> grouped[t] == ItemsOf(os[..i], t)
    {
      var t := PrimaryType(os[i]);
      var item := RebuiltItem(os[i]);
      assert os[..i + 1][..i] == os[..i];
      if t !in grouped {
        TypeOrderItems(os[..i], t);
        grouped := grouped[t := []];
        order := order + [t];
      }
      grouped := grouped[t := grouped[t] + [item]];
      i := i + 1;
    }
    assert os[..i] == os;
  }

  /** The number of items over groups `order`, counted in `os`. */
  function CountOver(os: seq<OrchestratedSuggestion>, order: seq<SuggestionType>): nat {
    if |order| == 0 then 0
    else CountOver(os, order[..|order| - 1]) + |ItemsOf(os, order[|order| - 1])|
  }

  lemma {:induction false} CountOverStep(os: seq<OrchestratedSuggestion>, o: OrchestratedSuggestion, order: seq<SuggestionType>)
    requires Distinct(order)
    ensures CountOver(os + [o], order) == CountOver(os, order) + (if PrimaryType(o) in order then 1 else 0)
  {
    var os' := os + [o];
    assert os'[..|os|] == os;
    if |order| > 0 {
      var init := order[..|order| - 1];
      assert Distinct(init);
      CountOverStep(os, o, init);
      if PrimaryType(o) == order[|order| - 1] {
        assert PrimaryType(o) !in init;
      }
    }
  }

  lemma CountOverAppend(os: seq<OrchestratedSuggestion>, order: seq<SuggestionType>, t: SuggestionType)
    ensures CountOver(os, order + [t]) == CountOver(os, order) + |ItemsOf(os, t)|
  {
    assert (order + [t])[..|order|] == order;
  }

  /** Regrouping loses no suggestion and adds none: the group counts add up
      to the number of suggestions the model returned. */
  lemma {:induction false} RebuildKeepsEverySuggestion(os: seq<OrchestratedSuggestion>)
    ensures CountOver(os, TypeOrder(os)) == |os|
  {
    if |os| > 0 {
      var init := os[..|os| - 1];
      var o := os[|os| - 1];
      RebuildKeepsEverySuggestion(init);
      TypeOrderDistinct(init);
      assert os == init + [o];
      CountOverStep(init, o, TypeOrder(init));
      if PrimaryType(o) !in TypeOrder(init) {
        NewTypeCount(os, init, o);
      }
    }
  }

  /** A suggestion of a type not seen before opens a group of one. */
  lemma NewTypeCount(os: seq<OrchestratedSuggestion>, init: seq<OrchestratedSuggestion>, o: OrchestratedSuggestion)
    requires os == init + [o] && PrimaryType(o) !in TypeOrder(init)
    ensures TypeOrder(os) == TypeOrder(init) + [PrimaryType(o)]
    ensures CountOver(os, TypeOrder(os)) == CountOver(os, TypeOrder(init)) + 1
  {
    var t := PrimaryType(o);
    assert os[..|os| - 1] == init;
    TypeOrderItems(init, t);
    CountOverAppend(os, TypeOrder(init), t);
    assert ItemsOf(os, t) == ItemsOf(init, t) + [RebuiltItem(o)];
  }

  /** Each rebuilt group is non-empty, its count is its number of items, its
      items are ordered by score, and each item's level is the level of its
      score. */
  lemma RebuildGroupsMeaning(os: seq<OrchestratedSuggestion>, i: nat)
    requires i < |RebuildGroups(os)|
    ensures var g := RebuildGroups(os)[i];
      g.count == |g.items| > 0 && SortedDesc(g.items)
      && forall it :: it in g.items ==>
        it.severityScore.Some? && it.severity == ScoreToSeverityLevel(it.severityScore.value)
  {
    var t := TypeOrder(os)[i];
    var g := RebuildGroups(os)[i];
    TypeOrderItems(os, t);
    SortDescSorted(ItemsOf(os, t));
    ItemsOfLevelled(os, t);
    forall it | it in g.items
      ensures it.severityScore.Some? && it.severity == ScoreToSeverityLevel(it.severityScore.value)
    {
      assert it in multiset(g.items);
      assert it in multiset(ItemsOf(os, t));
    }
  }

  lemma {:induction false} ItemsOfLevelled(os: seq<OrchestratedSuggestion>, t: SuggestionType)
    ensures forall it :: it in ItemsOf(os, t) ==>
      it.severityScore.Some? && it.severity == ScoreToSeverityLevel(it.severityScore.value)
  {
    if |os| > 0 {
      ItemsOfLevelled(os[..|os| - 1], t);
    }
  }

  /** Every rebuilt item satisfies the score bound of a suggestion item
      when the model's answer does, as its validation guarantees. */
  lemma RebuiltItemsValid(os: seq<OrchestratedSuggestion>, i: nat)
    requires forall k :: 0 <= k < |os| ==> InUnitInterval(os[k].severityScore)
    requires i < |RebuildGroups(os)|
    ensures forall it :: it in RebuildGroups(os)[i].items ==> ValidItem(it)
  {
    var t := TypeOrder(os)[i];
    var g := RebuildGroups(os)[i];
    ItemsOfValid(os, t);
    forall it | it in g.items
      ensures ValidItem(it)
    {
      assert it in multiset(g.items);
      assert it in multiset(ItemsOf(os, t));
    }
  }

  lemma {:induction false} ItemsOfValid(os: seq<OrchestratedSuggestion>, t: SuggestionType)
    requires forall k :: 0 <= k < |os| ==> InUnitInterval(os[k].severityScore)
    ensures forall it :: it in ItemsOf(os, t) ==> ValidItem(it)
  {
    if |os| > 0 {
      ItemsOfValid(os[..|os| - 1], t);
    }
  }

  // ---------------------------------------------------------------------
  // One section, and all of them
  // ---------------------------------------------------------------------

  /** The structured model call on a section's name, type and flattened
      suggestions. */
  type Responder = (string, string, seq<FlatSuggestion>) -> Result<seq<OrchestratedSuggestion>>

  /** What `_orchestrate_section` returns: the section itself when it has no
      item, the score-sorted section when it has at most two or the model
      call fails, and the regrouped answer otherwise. */
  function Orchestrate(ss: SectionSuggestions, respond: Responder): SectionSuggestions {
    if |ss.suggestions| == 0 || NothingToOrchestrate(ss.suggestions) then ss
    else
      var flat := Flatten(ss.suggestions);
      if |flat| <= 2 then SortedSection(ss)
      else match respond(ss.section, ss.sectionType, flat)
        case Failure(_) => SortedSection(ss)
        case Success(os) => Rebuild(ss, os)
  }

  /** `_orchestrate_section`. */
  method OrchestrateSection(ss: SectionSuggestions, respond: Responder) returns (r: SectionSuggestions)
    ensures r == Orchestrate(ss, respond)
  {
    if |ss.suggestions| == 0 || NothingToOrchestrate(ss.suggestions) {
      return ss;
    }
    var allItems := FlattenSuggestions(ss.suggestions);
    if |allItems| <= 2 {
      r := SortBySeverityScore(ss);
      return;
    }
    var orchestrated := respond(ss.section, ss.sectionType, allItems);
    if orchestrated.Failure? {
      r := SortBySeverityScore(ss);
    } else {
      r := RebuildSectionSuggestions(ss, orchestrated.value);
    }
  }

  /** Orchestration keeps the section's name, line and type; an empty
      section comes back unchanged, and one with one or two items is only
      reordered, without asking the model. */
  lemma OrchestrateMeaning(ss: SectionSuggestions, respond: Responder)
    ensures var r := Orchestrate(ss, respond);
      r.section == ss.section && r.line == ss.line && r.sectionType == ss.sectionType
    ensures TotalItems(ss.suggestions) == 0 ==> Orchestrate(ss, respond) == ss
    ensures 0 < TotalItems(ss.suggestions) <= 2 ==> Orchestrate(ss, respond) == SortedSection(ss)
  {
    NothingFlattensToNothing(ss.suggestions);
    FlattenLength(ss.suggestions);
  }

  /** When the model fails the section is only reordered; when it answers,
      the groups are rebuilt from its answer alone. */
  lemma OrchestrateWithModel(ss: SectionSuggestions, respond: Responder)
    requires TotalItems(ss.suggestions) > 2
    ensures respond(ss.section, ss.sectionType, Flatten(ss.suggestions)).Failure? ==>
      Orchestrate(ss, respond) == SortedSection(ss)
    ensures respond(ss.section, ss.sectionType, Flatten(ss.suggestions)).Success? ==>
      Orchestrate(ss, respond).suggestions == RebuildGroups(respond(ss.section, ss.sectionType, Flatten(ss.suggestions)).value)
  {
    NothingFlattensToNothing(ss.suggestions);
    FlattenLength(ss.suggestions);
  }

  /** `validate_and_prioritize`: every section orchestrated on its own, in
      order. */
  function ValidateAndPrioritize(sections: seq<SectionSuggestions>, respond: Responder): (r: seq<SectionSuggestions>)
    ensures |r| == |sections|
    ensures forall i :: 0 <= i < |sections| ==> r[i] == Orchestrate(sections[i], respond)
  {
    seq(|sections|, i requires 0 <= i < |sections| => Orchestrate(sections[i], respond))
  }

  /** Position i of the result belongs to section i of the input. */
  lemma ValidateKeepsSections(sections: seq<SectionSuggestions>, respond: Responder, i: nat)
    requires i < |sections|
    ensures ValidateAndPrioritize(sections, respond)[i].section == sections[i].section
    ensures ValidateAndPrioritize(sections, respond)[i].line == sections[i].line
  {
    OrchestrateMeaning(sections[i], respond);
  }
}
