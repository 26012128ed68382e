/** The six cached tables, and the keys their rows are stored under. */
module Entities {
  import opened Options
  import opened Keys
  import opened Text
  import opened Scan

  datatype Entity =
    | Metric(id: string, org: string, code: string, aggregation: string, fieldName: string, expression: string)
    | MetricFilter(id: string, org: string, metricId: string, key: string, values: seq<string>)
    | Charge(id: string, org: string, planId: string, metricId: string, updatedAt: int,
             payInAdvance: bool, acceptsTargetWallet: bool, pricingGroupKeys: seq<string>)
    | ChargeFilter(id: string, org: string, chargeId: string, updatedAt: int, pricingGroupKeys: seq<string>)
    | FilterValue(id: string, org: string, chargeFilterId: string, metricFilterId: string, values: seq<string>)
    | Subscription(id: string, org: string, externalId: string, planId: string, startedAt: Option<int>, terminatedAt: Option<int>)

  type Store = map<string, Entity>

  /** The components of a row's key: table prefix, then the parents, then the row's own id;
      a metric has its code in place of the id. */
  function Parts(e: Entity): (parts: seq<string>)
    ensures |parts| > 1
  {
    match e
    case Metric(_, org, code, _, _, _) => ["bm", org, code]
    case MetricFilter(id, org, metricId, _, _) => ["bmf", org, metricId, id]
    case Charge(id, org, planId, metricId, _, _, _, _) => ["ch", org, planId, metricId, id]
    case ChargeFilter(id, org, chargeId, _, _) => ["cf", org, chargeId, id]
    case FilterValue(id, org, chargeFilterId, metricFilterId, _) => ["cfv", org, chargeFilterId, metricFilterId, id]
    case Subscription(id, org, externalId, _, _, _) => ["sub", org, externalId, id]
  }

  function KeyOf(e: Entity): string {
    Join(Parts(e))
  }

  /** No id contains a colon.  Nothing is asked of metric codes and external ids, which
      customers choose. */
  ghost predicate IdsColonFree(e: Entity) {
    ColonFree(e.org) && ColonFree(e.id) &&
    match e
    case Metric(_, _, _, _, _, _) => true
    case MetricFilter(_, _, metricId, _, _) => ColonFree(metricId)
    case Charge(_, _, planId, metricId, _, _, _, _) => ColonFree(planId) && ColonFree(metricId)
    case ChargeFilter(_, _, chargeId, _, _) => ColonFree(chargeId)
    case FilterValue(_, _, chargeFilterId, metricFilterId, _) => ColonFree(chargeFilterId) && ColonFree(metricFilterId)
    case Subscription(_, _, _, planId, _, _) => ColonFree(planId)
  }

  /** Every row is stored under its own key. */
  ghost predicate Keyed(store: Store) {
    forall k :: k in store ==> k == KeyOf(store[k]) && IdsColonFree(store[k])
  }

  /** Rows of two tables never share a key. */
  lemma TablesAreDisjoint(e: Entity, e': Entity)
    requires KeyOf(e) == KeyOf(e')
    ensures Parts(e)[0] == Parts(e')[0]
  {
    var p, p' := Parts(e), Parts(e');
    HeadOfPrefix(p[0], Join(p[1..]), p'[0], Join(p'[1..]));
  }

  /** Two rows of one table share a key only if the key's components agree. */
  lemma KeyDeterminesParts(e: Entity, e': Entity)
    requires KeyOf(e) == KeyOf(e') && IdsColonFree(e) && IdsColonFree(e') && !e.Subscription?
    ensures Parts(e) == Parts(e')
  {
    TablesAreDisjoint(e, e');
    var p, p' := Parts(e), Parts(e');
    assert |p| == |p'|;
    assert AllColonFree(p[..|p| - 1]) && AllColonFree(p'[..|p| - 1]);
    JoinInjective(p, p');
  }

  /** The last component of a key is what follows its last colon. */
  lemma {:induction false} LastPart(parts: seq<string>)
    requires |parts| > 1
    ensures Join(parts) == Join(parts[..|parts| - 1]) + ":" + parts[|parts| - 1]
  {
    if |parts| == 2 {
      assert parts[1..] == [parts[1]] && parts[..1] == [parts[0]];
    } else {
      LastPart(parts[1..]);
      assert parts[1..][..|parts| - 2] == parts[..|parts| - 1][1..];
      assert parts[1..][|parts| - 2] == parts[|parts| - 1];
    }
  }

  /** Rows with the same key have the same id, in every table but that of the metrics;
      whatever the customers chose for external ids. */
  lemma EqualKeysEqualIds(e: Entity, e': Entity)
    requires KeyOf(e) == KeyOf(e') && !e.Metric? && !e'.Metric? && ColonFree(e.id) && ColonFree(e'.id)
    ensures e.id == e'.id
  {
    var p, p' := Parts(e), Parts(e');
    LastPart(p);
    LastPart(p');
    LastSeparatorSplits(':', Join(p[..|p| - 1]), e.id, Join(p'[..|p'| - 1]), e'.id);
  }

  lemma ParentsColonFree(e: Entity)
    requires IdsColonFree(e) && !e.Subscription?
    ensures AllColonFree(Parts(e)[..|Parts(e)| - 1])
  {
  }

  /** A search by leading components hits exactly the rows of that table with those
      components. */
  lemma PartsHit(parts: seq<string>, lead: seq<string>)
    requires AllColonFree(lead) && 0 < |lead| < |parts| && AllColonFree(parts[..|parts| - 1])
    ensures Prefix(lead) <= Join(parts) <==> parts[..|lead|] == lead
  {
    assert forall i :: 0 <= i < |lead| ==> parts[..|lead|][i] == parts[..|parts| - 1][i];
    PrefixHits(lead, parts);
  }

  lemma SearchHits(e: Entity, lead: seq<string>)
    requires IdsColonFree(e) && lead != [] && AllColonFree(lead) && lead[0] != "sub"
    requires Parts(e)[0] == lead[0] ==> |Parts(e)| > |lead|
    ensures Prefix(lead) <= KeyOf(e) <==> Parts(e)[0] == lead[0] && Parts(e)[..|lead|] == lead
  {
    var parts := Parts(e);
    HeadColonFree(e);
    if parts[0] == lead[0] {
      ParentsColonFree(e);
      PartsHit(parts, lead);
    } else {
      OtherTableMisses(lead, parts);
    }
  }

  lemma HeadColonFree(e: Entity)
    ensures ColonFree(Parts(e)[0])
  {
  }

  /** The rows each search is meant to find, by their fields. */
  ghost function MetricFiltersOf(store: Store, org: string, metricId: string): set<string> {
    set k | k in store && store[k].MetricFilter? && store[k].org == org && store[k].metricId == metricId
  }

  ghost function ChargesOf(store: Store, org: string, planId: string, metricId: string): set<string> {
    set k | k in store && store[k].Charge? && store[k].org == org && store[k].planId == planId && store[k].metricId == metricId
  }

  ghost function ChargeFiltersOf(store: Store, org: string, chargeId: string): set<string> {
    set k | k in store && store[k].ChargeFilter? && store[k].org == org && store[k].chargeId == chargeId
  }

  ghost function FilterValuesOf(store: Store, org: string, chargeFilterId: string): set<string> {
    set k | k in store && store[k].FilterValue? && store[k].org == org && store[k].chargeFilterId == chargeFilterId
  }

  /** The rows with keys in s, in key order. */
  ghost function Rows(store: Store, s: set<string>): (rows: seq<Entity>)
    requires s <= store.Keys
    ensures |rows| == |InOrder(s)| && forall i :: 0 <= i < |rows| ==> InOrder(s)[i] in s && rows[i] == store[InOrder(s)[i]]
    ensures forall e :: e in rows <==> exists k :: k in s && store[k] == e
  {
    var ks := InOrder(s);
    assert forall k :: k in ks ==> k in store;
    var rows := At(store, ks);
    assert forall k :: k in s ==> exists i :: 0 <= i < |ks| && ks[i] == k && rows[i] == store[k];
    assert forall i :: 0 <= i < |ks| ==> ks[i] in s;
    rows
  }

  lemma MetricFilterHit(e: Entity, org: string, metricId: string)
    requires IdsColonFree(e) && ColonFree(org) && ColonFree(metricId)
    ensures Prefix(["bmf", org, metricId]) <= KeyOf(e) <==> e.MetricFilter? && e.org == org && e.metricId == metricId
  {
    SearchHits(e, ["bmf", org, metricId]);
    assert e.MetricFilter? ==> Parts(e)[..3] == ["bmf", e.org, e.metricId];
  }

  lemma ChargeHit(e: Entity, org: string, planId: string, metricId: string)
    requires IdsColonFree(e) && ColonFree(org) && ColonFree(planId) && ColonFree(metricId)
    ensures Prefix(["ch", org, planId, metricId]) <= KeyOf(e) <==>
      e.Charge? && e.org == org && e.planId == planId && e.metricId == metricId
  {
    SearchHits(e, ["ch", org, planId, metricId]);
    assert e.Charge? ==> Parts(e)[..4] == ["ch", e.org, e.planId, e.metricId];
  }

  lemma ChargeFilterHit(e: Entity, org: string, chargeId: string)
    requires IdsColonFree(e) && ColonFree(org) && ColonFree(chargeId)
    ensures Prefix(["cf", org, chargeId]) <= KeyOf(e) <==> e.ChargeFilter? && e.org == org && e.chargeId == chargeId
  {
    SearchHits(e, ["cf", org, chargeId]);
    assert e.ChargeFilter? ==> Parts(e)[..3] == ["cf", e.org, e.chargeId];
  }

  lemma FilterValueHit(e: Entity, org: string, chargeFilterId: string)
    requires IdsColonFree(e) && ColonFree(org) && ColonFree(chargeFilterId)
    ensures Prefix(["cfv", org, chargeFilterId]) <= KeyOf(e) <==>
      e.FilterValue? && e.org == org && e.chargeFilterId == chargeFilterId
  {
    SearchHits(e, ["cfv", org, chargeFilterId]);
    assert e.FilterValue? ==> Parts(e)[..3] == ["cfv", e.org, e.chargeFilterId];
  }

  method SearchMetricFilters(store: Store, org: string, metricId: string) returns (rows: seq<Entity>)
    requires Keyed(store) && ColonFree(org) && ColonFree(metricId)
    ensures rows == Rows(store, MetricFiltersOf(store, org, metricId))
  {
    ghost var lead := ["bmf", org, metricId];
    LeadOfThree("bmf", org, metricId);
    forall k | k in store
      ensures Prefix(lead) <= k <==> k in MetricFiltersOf(store, org, metricId)
    {
      MetricFilterHit(store[k], org, metricId);
    }
    assert Matching(store, Prefix(lead)) == MetricFiltersOf(store, org, metricId);
    assert "bmf:" == "bmf" + ":";
    rows := Search(store, "bmf:" + org + ":" + metricId + ":");
  }

  method SearchCharge(store: Store, org: string, planId: string, metricId: string) returns (rows: seq<Entity>)
    requires Keyed(store) && ColonFree(org) && ColonFree(planId) && ColonFree(metricId)
    ensures rows == Rows(store, ChargesOf(store, org, planId, metricId))
  {
    ghost var lead := ["ch", org, planId, metricId];
    LeadOfFour("ch", org, planId, metricId);
    forall k | k in store
      ensures Prefix(lead) <= k <==> k in ChargesOf(store, org, planId, metricId)
    {
      ChargeHit(store[k], org, planId, metricId);
    }
    assert Matching(store, Prefix(lead)) == ChargesOf(store, org, planId, metricId);
    assert "ch:" == "ch" + ":";
    rows := Search(store, "ch:" + org + ":" + planId + ":" + metricId + ":");
  }

  method SearchChargeFilter(store: Store, org: string, chargeId: string) returns (rows: seq<Entity>)
    requires Keyed(store) && ColonFree(org) && ColonFree(chargeId)
    ensures rows == Rows(store, ChargeFiltersOf(store, org, chargeId))
  {
    ghost var lead := ["cf", org, chargeId];
    LeadOfThree("cf", org, chargeId);
    forall k | k in store
      ensures Prefix(lead) <= k <==> k in ChargeFiltersOf(store, org, chargeId)
    {
      ChargeFilterHit(store[k], org, chargeId);
    }
    assert Matching(store, Prefix(lead)) == ChargeFiltersOf(store, org, chargeId);
    assert "cf:" == "cf" + ":";
    rows := Search(store, "cf:" + org + ":" + chargeId + ":");
  }

  method SearchChargeFilterValue(store: Store, org: string, chargeFilterId: string) returns (rows: seq<Entity>)
    requires Keyed(store) && ColonFree(org) && ColonFree(chargeFilterId)
    ensures rows == Rows(store, FilterValuesOf(store, org, chargeFilterId))
  {
    ghost var lead := ["cfv", org, chargeFilterId];
    LeadOfThree("cfv", org, chargeFilterId);
    forall k | k in store
      ensures Prefix(lead) <= k <==> k in FilterValuesOf(store, org, chargeFilterId)
    {
      FilterValueHit(store[k], org, chargeFilterId);
    }
    assert Matching(store, Prefix(lead)) == FilterValuesOf(store, org, chargeFilterId);
    assert "cfv:" == "cfv" + ":";
    rows := Search(store, "cfv:" + org + ":" + chargeFilterId + ":");
  }

  lemma LeadOfThree(a: string, b: string, c: string)
    ensures Prefix([a, b, c]) == a + ":" + b + ":" + c + ":"
  {
    var three, two, one := [a, b, c], [b, c], [c];
    assert three[1..] == two && two[1..] == one && one[1..] == [];
    assert Prefix(one) == c + ":" + Prefix([]);
    assert Prefix(one) == c + ":";
    assert Prefix(two) == b + ":" + Prefix(one);
    assert Prefix(three) == a + ":" + Prefix(two);
    assert a + ":" + (b + ":" + (c + ":")) == a + ":" + b + ":" + c + ":";
  }

  lemma LeadOfFour(a: string, b: string, c: string, d: string)
    ensures Prefix([a, b, c, d]) == a + ":" + b + ":" + c + ":" + d + ":"
  {
    var four, three := [a, b, c, d], [b, c, d];
    assert four[1..] == three;
    LeadOfThree(b, c, d);
    assert Prefix(four) == a + ":" + Prefix(three);
    assert a + ":" + (b + ":" + c + ":" + d + ":") == a + ":" + b + ":" + c + ":" + d + ":";
  }
}
