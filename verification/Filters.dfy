/** Flat filters, and the choice of the filter an event falls under within one charge. */
module Filters {
  import opened Options

  /** A property of an event: JSON null, or a value of which only its "%v" rendering is ever
      looked at. */
  datatype Property = Null | Value(text: string)

  type Properties = map<string, Property>
  type FilterValues = map<string, seq<string>>

  datatype FlatFilter = FlatFilter(
    organizationId: string,
    billableMetricCode: string,
    planId: string,
    chargeId: string,
    chargeUpdatedAt: int,
    chargeFilterId: Option<string>,
    chargeFilterUpdatedAt: Option<int>,
    filters: Option<FilterValues>,
    pricingGroupKeys: seq<string>,
    payInAdvance: bool,
    acceptsTargetWallet: bool)

  /** The property is there and not null. */
  predicate Present(props: Properties, key: string) {
    key in props && props[key] != Null
  }

  predicate HasFilters(f: FlatFilter) {
    f.filters.Some? && |f.filters.value| > 0
  }

  /** Every key of the filter is a property of the event with one of the listed values. */
  predicate Matches(f: FlatFilter, props: Properties) {
    f.filters.Some? ==> forall k :: k in f.filters.value ==> Present(props, k) && props[k].text in f.filters.value[k]
  }

  /** IsMatchingEvent: the loop visits the keys in no particular order and stops at the first
      that fails. */
  method IsMatchingEvent(f: FlatFilter, props: Properties) returns (matching: bool)
    ensures matching == Matches(f, props)
  {
    matching := true;
    if !HasFilters(f) {
      return;
    }
    var values := f.filters.value;
    var rest := values.Keys;
    while rest != {}
      invariant rest <= values.Keys && matching
      invariant forall k :: k in values && k !in rest ==> Present(props, k) && props[k].text in values[k]
      decreases rest
    {
      var k :| k in rest;
      rest := rest - {k};
      if !Present(props, k) {
        matching := false;
        break;
      }
      if props[k].text !in values[k] {
        matching := false;
        break;
      }
    }
  }

  /** Keys: as many as the filter has, in no particular order. */
  method Keys(f: FlatFilter) returns (keys: seq<string>)
    ensures |keys| == KeyCount(f)
    ensures forall k :: k in keys <==> f.filters.Some? && k in f.filters.value
  {
    keys := [];
    if f.filters.None? {
      return;
    }
    var values := f.filters.value;
    var rest := values.Keys;
    while rest != {}
      invariant rest <= values.Keys && |keys| + |rest| == |values.Keys|
      invariant forall k :: k in keys <==> k in values && k !in rest
      decreases rest
    {
      var k :| k in rest;
      rest := rest - {k};
      keys := keys + [k];
    }
  }

  function KeyCount(f: FlatFilter): nat {
    if f.filters.Some? then |f.filters.value| else 0
  }

  /** The charge's bucket for events that fall under none of its filters. */
  function ToDefaultFilter(f: FlatFilter): FlatFilter {
    f.(chargeFilterId := None, chargeFilterUpdatedAt := None, filters := None)
  }

  predicate Candidate(f: FlatFilter, props: Properties) {
    HasFilters(f) && Matches(f, props)
  }

  predicate NoCandidate(filters: seq<FlatFilter>, props: Properties) {
    forall i :: 0 <= i < |filters| ==> !Candidate(filters[i], props)
  }

  /** filters[i] matches with the most keys, and is the first to do so. */
  predicate IsBest(filters: seq<FlatFilter>, props: Properties, i: int) {
    && 0 <= i < |filters| && Candidate(filters[i], props)
    && (forall j :: 0 <= j < |filters| && Candidate(filters[j], props) ==> KeyCount(filters[j]) <= KeyCount(filters[i]))
    && (forall j :: 0 <= j < i && Candidate(filters[j], props) ==> KeyCount(filters[j]) < KeyCount(filters[i]))
  }

  ghost predicate IsChoice(filters: seq<FlatFilter>, props: Properties, choice: FlatFilter)
    requires filters != []
  {
    if NoCandidate(filters, props) then
      choice == ToDefaultFilter(filters[0])
    else
      exists i :: IsBest(filters, props, i) && choice == filters[i]
  }

  /** The filters that match the event, in order. */
  function Candidates(filters: seq<FlatFilter>, props: Properties): seq<FlatFilter> {
    if filters == [] then
      []
    else
      var front, last := filters[..|filters| - 1], filters[|filters| - 1];
      Candidates(front, props) + if Candidate(last, props) then [last] else []
  }

  /** The better of a filter kept so far and the next one. */
  function Better(best: Option<FlatFilter>, f: FlatFilter): Option<FlatFilter> {
    if best.None? || KeyCount(f) > KeyCount(best.value) then Some(f) else best
  }

  /** The filter kept by one walk over the candidates. */
  function Kept(candidates: seq<FlatFilter>): (kept: Option<FlatFilter>)
    ensures kept.None? <==> candidates == []
  {
    if candidates == [] then None
    else Better(Kept(candidates[..|candidates| - 1]), candidates[|candidates| - 1])
  }

  ghost predicate IsKept(filters: seq<FlatFilter>, props: Properties, kept: Option<FlatFilter>) {
    if kept.None? then NoCandidate(filters, props) else exists i :: IsBest(filters, props, i) && kept.value == filters[i]
  }

  lemma KeptOfOneMore(front: seq<FlatFilter>, last: FlatFilter, props: Properties, kept: Option<FlatFilter>)
    requires IsKept(front, props, kept)
    ensures IsKept(front + [last], props, if Candidate(last, props) then Better(kept, last) else kept)
  {
    var filters := front + [last];
    assert forall j :: 0 <= j < |front| ==> filters[j] == front[j];
    if Candidate(last, props) && (kept.None? || KeyCount(last) > KeyCount(kept.value)) {
      assert IsBest(filters, props, |front|);
    } else if kept.Some? {
      var i :| IsBest(front, props, i) && kept.value == front[i];
      assert IsBest(filters, props, i);
    }
  }

  lemma KeptOfAppended(cs: seq<FlatFilter>, f: FlatFilter)
    ensures Kept(cs + [f]) == Better(Kept(cs), f)
  {
    assert (cs + [f])[..|cs|] == cs;
  }

  /** The filter kept is the first of those with the most keys. */
  lemma {:induction false} KeptIsBest(filters: seq<FlatFilter>, props: Properties)
    ensures IsKept(filters, props, Kept(Candidates(filters, props)))
  {
    if filters != [] {
      var front, last := filters[..|filters| - 1], filters[|filters| - 1];
      KeptIsBest(front, props);
      var cs := Candidates(front, props);
      KeptOfOneMore(front, last, props, Kept(cs));
      assert front + [last] == filters;
      if Candidate(last, props) {
        KeptOfAppended(cs, last);
      } else {
        assert cs + [] == cs;
      }
    }
  }

  lemma KeptIsChoice(filters: seq<FlatFilter>, props: Properties, f: FlatFilter)
    requires IsKept(filters, props, Some(f))
    ensures filters != [] && IsChoice(filters, props, f)
  {
  }

  lemma SingleChoice(filter: FlatFilter, props: Properties)
    ensures IsChoice([filter], props, if Candidate(filter, props) then filter else ToDefaultFilter(filter))
  {
    if Candidate(filter, props) {
      assert IsBest([filter], props, 0);
    }
  }

  /** The first loop of MatchingFilter. */
  method CollectCandidates(filters: seq<FlatFilter>, props: Properties) returns (candidates: seq<FlatFilter>)
    ensures candidates == Candidates(filters, props)
  {
    candidates := [];
    for i := 0 to |filters|
      invariant candidates == Candidates(filters[..i], props)
    {
      assert filters[..i + 1][..i] == filters[..i];
      var matching := IsMatchingEvent(filters[i], props);
      if HasFilters(filters[i]) && matching {
        candidates := candidates + [filters[i]];
      }
    }
    assert filters[..|filters|] == filters;
  }

  /** Its second loop. */
  method KeepMostSpecific(candidates: seq<FlatFilter>) returns (best: Option<FlatFilter>)
    ensures best == Kept(candidates)
  {
    best := None;
    for i := 0 to |candidates|
      invariant best == Kept(candidates[..i])
    {
      assert candidates[..i + 1] == candidates[..i] + [candidates[i]];
      KeptOfAppended(candidates[..i], candidates[i]);
      if best.None? {
        best := Some(candidates[i]);
        continue;
      }
      var keys := Keys(candidates[i]);
      var bestKeys := Keys(best.value);
      if |keys| > |bestKeys| {
        best := Some(candidates[i]);
      }
    }
    assert candidates[..|candidates|] == candidates;
  }

  /** MatchingFilter.  The source takes a charge's filters, of which there is always one. */
  method MatchingFilter(filters: seq<FlatFilter>, props: Properties) returns (choice: FlatFilter)
    requires filters != []
    ensures IsChoice(filters, props, choice)
  {
    if |filters| > 1 {
      var candidates := CollectCandidates(filters, props);
      var best := KeepMostSpecific(candidates);
      assert IsKept(filters, props, best) by {
        KeptIsBest(filters, props);
      }
      if |candidates| == 0 {
        choice := ToDefaultFilter(filters[0]);
      } else {
        choice := best.value;
        KeptIsChoice(filters, props, choice);
      }
    } else {
      var filter := filters[0];
      SingleChoice(filter, props);
      assert filters == [filter];
      var matching := IsMatchingEvent(filter, props);
      if HasFilters(filter) && matching {
        choice := filter;
      } else {
        choice := ToDefaultFilter(filter);
      }
    }
  }

  /** The default bucket field by field: no filter, and everything else the first filter's. */
  predicate IsDefaultOf(choice: FlatFilter, first: FlatFilter) {
    && choice.chargeFilterId.None? && choice.chargeFilterUpdatedAt.None? && choice.filters.None?
    && choice.organizationId == first.organizationId && choice.billableMetricCode == first.billableMetricCode
    && choice.planId == first.planId && choice.chargeId == first.chargeId && choice.chargeUpdatedAt == first.chargeUpdatedAt
    && choice.pricingGroupKeys == first.pricingGroupKeys && choice.payInAdvance == first.payInAdvance
    && choice.acceptsTargetWallet == first.acceptsTargetWallet
  }

  /** The choice field by field: with no match the default bucket of the first filter, which has
      no filter at all; otherwise a filter of the list that has keys, whose keys are all
      properties of the event with a listed value, and that no other such filter has more keys
      than. */
  lemma ChoiceFields(filters: seq<FlatFilter>, props: Properties, choice: FlatFilter)
    requires filters != [] && IsChoice(filters, props, choice)
    ensures NoCandidate(filters, props) ==> IsDefaultOf(choice, filters[0])
    ensures !NoCandidate(filters, props) ==>
      && choice in filters && choice.filters.Some? && |choice.filters.value| > 0
      && (forall k :: k in choice.filters.value ==> k in props && props[k].Value? && props[k].text in choice.filters.value[k])
      && (forall f :: f in filters && Candidate(f, props) ==> |f.filters.value| <= |choice.filters.value|)
  {
    if !NoCandidate(filters, props) {
      var i :| IsBest(filters, props, i) && choice == filters[i];
    }
  }

  /** A list has no match exactly when every filter is without keys or has a key that the event
      lacks, has as null, or has with another value. */
  lemma NoCandidateFields(filters: seq<FlatFilter>, props: Properties)
    ensures NoCandidate(filters, props) <==> forall f :: f in filters ==>
      || f.filters.None? || f.filters.value == map[]
      || exists k :: k in f.filters.value && (k !in props || props[k].Null? || props[k].text !in f.filters.value[k])
  {
    forall f
      ensures !Candidate(f, props) <==>
        || f.filters.None? || f.filters.value == map[]
        || exists k :: k in f.filters.value && (k !in props || props[k].Null? || props[k].text !in f.filters.value[k])
    {
      assert f.filters.Some? ==> (|f.filters.value| == 0 <==> f.filters.value == map[]);
    }
  }

  /** A list has one choice. */
  lemma ChoiceIsUnique(filters: seq<FlatFilter>, props: Properties, a: FlatFilter, b: FlatFilter)
    requires filters != [] && IsChoice(filters, props, a) && IsChoice(filters, props, b)
    ensures a == b
  {
    if !NoCandidate(filters, props) {
      var i :| IsBest(filters, props, i) && a == filters[i];
      var j :| IsBest(filters, props, j) && b == filters[j];
    }
  }

  ghost function Choice(filters: seq<FlatFilter>, props: Properties): (choice: FlatFilter)
    requires filters != []
    ensures IsChoice(filters, props, choice)
  {
    KeptIsBest(filters, props);
    if NoCandidate(filters, props) then
      ToDefaultFilter(filters[0])
    else
      var i :| IsBest(filters, props, i); filters[i]
  }

  /** A matching filter whose keys are strictly among those of another matching filter is
      never chosen. */
  lemma LessSpecificIsNeverChosen(filters: seq<FlatFilter>, props: Properties, f: FlatFilter, g: FlatFilter)
    requires f in filters && g in filters && Candidate(f, props) && Candidate(g, props)
    requires f.filters.value.Keys < g.filters.value.Keys
    ensures !IsChoice(filters, props, f)
  {
    var a, b := f.filters.value.Keys, g.filters.value.Keys;
    assert b == a + (b - a);
    assert KeyCount(f) < KeyCount(g);
  }

  /** Filter r could be chosen from these filters in some order: the default bucket made from
      any of them when none matches, otherwise any match with the most keys. */
  ghost predicate Winner(filters: seq<FlatFilter>, props: Properties, r: FlatFilter) {
    if NoCandidate(filters, props) then
      exists f :: f in filters && r == ToDefaultFilter(f)
    else
      && r in filters && Candidate(r, props)
      && forall f :: f in filters && Candidate(f, props) ==> KeyCount(f) <= KeyCount(r)
  }

  ghost predicate SameFilters(filters: seq<FlatFilter>, filters': seq<FlatFilter>) {
    multiset(filters) == multiset(filters')
  }

  lemma SameMembers(filters: seq<FlatFilter>, filters': seq<FlatFilter>, f: FlatFilter)
    requires SameFilters(filters, filters')
    ensures f in filters <==> f in filters'
  {
    assert f in filters <==> f in multiset(filters);
    assert f in filters' <==> f in multiset(filters');
  }

  lemma SameWinners(filters: seq<FlatFilter>, filters': seq<FlatFilter>, props: Properties, r: FlatFilter)
    requires SameFilters(filters, filters')
    ensures Winner(filters, props, r) <==> Winner(filters', props, r)
  {
    forall f: FlatFilter
      ensures f in filters <==> f in filters'
    {
      SameMembers(filters, filters', f);
    }
    assert NoCandidate(filters, props) <==> forall f :: f in filters ==> !Candidate(f, props);
    assert NoCandidate(filters', props) <==> forall f :: f in filters' ==> !Candidate(f, props);
  }

  /** Putting a filter first. */
  lemma BroughtToFront(filters: seq<FlatFilter>, f: FlatFilter) returns (filters': seq<FlatFilter>)
    requires f in filters
    ensures SameFilters(filters, filters') && filters' != [] && filters'[0] == f
  {
    var i :| 0 <= i < |filters| && filters[i] == f;
    filters' := [f] + (filters[..i] + filters[i + 1..]);
    assert filters == filters[..i] + [f] + filters[i + 1..];
  }

  /** The choices over all orders of the filters are exactly the winners. */
  lemma WinnersAreTheChoices(filters: seq<FlatFilter>, props: Properties, r: FlatFilter)
    requires filters != []
    ensures Winner(filters, props, r) <==>
      exists filters' :: SameFilters(filters, filters') && filters' != [] && IsChoice(filters', props, r)
  {
    if Winner(filters, props, r) {
      WinnerIsAChoice(filters, props, r);
    }
    if filters' :| SameFilters(filters, filters') && filters' != [] && IsChoice(filters', props, r) {
      assert Winner(filters', props, r);
      SameWinners(filters, filters', props, r);
    }
  }

  lemma WinnerIsAChoice(filters: seq<FlatFilter>, props: Properties, r: FlatFilter)
    requires Winner(filters, props, r)
    ensures exists filters' :: SameFilters(filters, filters') && filters' != [] && IsChoice(filters', props, r)
  {
    if NoCandidate(filters, props) {
      var f :| f in filters && r == ToDefaultFilter(f);
      var filters' := BroughtToFront(filters, f);
      SameWinners(filters, filters', props, r);
      forall g | g in filters'
        ensures !Candidate(g, props)
      {
        SameMembers(filters, filters', g);
      }
      assert IsChoice(filters', props, r);
    } else {
      var filters' := BroughtToFront(filters, r);
      SameWinners(filters, filters', props, r);
      assert IsBest(filters', props, 0);
    }
  }

  /** The choice does not depend on the order of the filters. */
  ghost predicate OrderFree(filters: seq<FlatFilter>, props: Properties)
    requires filters != []
  {
    forall filters' :: SameFilters(filters, filters') && filters' != [] ==> Choice(filters', props) == Choice(filters, props)
  }

  /** That is so exactly when there is one winner.  With no match this means that the
      filters agree on everything their default buckets copy. */
  lemma OrderFreeExactlyWhen(filters: seq<FlatFilter>, props: Properties)
    requires filters != []
    ensures OrderFree(filters, props) <==>
      forall r, r' :: Winner(filters, props, r) && Winner(filters, props, r') ==> r == r'
  {
    if OrderFree(filters, props) {
      forall r | Winner(filters, props, r)
        ensures r == Choice(filters, props)
      {
        WinnerIsAChoice(filters, props, r);
        var filters' :| SameFilters(filters, filters') && filters' != [] && IsChoice(filters', props, r);
        ChoiceIsUnique(filters', props, r, Choice(filters', props));
      }
    }
    if forall r, r' :: Winner(filters, props, r) && Winner(filters, props, r') ==> r == r' {
      forall filters' | SameFilters(filters, filters') && filters' != []
        ensures Choice(filters', props) == Choice(filters, props)
      {
        assert Winner(filters', props, Choice(filters', props)) && Winner(filters, props, Choice(filters, props));
        SameWinners(filters, filters', props, Choice(filters', props));
      }
    }
  }

  /** Two filters of one charge that group by different keys, and an event that matches
      neither: the first in the list decides what the event is grouped by. */
  lemma DefaultBucketDependsOnOrder()
    ensures exists filters, props :: filters != [] && NoCandidate(filters, props) && !OrderFree(filters, props)
  {
    var f := FlatFilter("o", "m", "p", "c", 0, Some("f"), Some(0), Some(map["k" := ["v"]]), ["a"], false, false);
    var g := f.(chargeFilterId := Some("g"), pricingGroupKeys := ["b"]);
    var filters, filters' := [f, g], [g, f];
    var props: Properties := map[];
    assert "k" in f.filters.value && !Present(props, "k");
    assert SameFilters(filters, filters');
    assert NoCandidate(filters, props) && NoCandidate(filters', props);
    assert Choice(filters, props).pricingGroupKeys == ["a"] && Choice(filters', props).pricingGroupKeys == ["b"];
  }
}
