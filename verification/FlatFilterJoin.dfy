/** BuildFlatFilters: the join, over five cached tables, that lists the filters an event's
    metric and plan give rise to. */
module FlatFilterJoin {
  import opened Options
  import opened Keys
  import opened Scan
  import opened Entities
  import opened Filters

  const ALL_FILTER_VALUES := "__ALL_FILTER_VALUES__"

  /** The values a filter value row stands for: its own, or all those of its metric filter. */
  function ValuesOf(value: Entity, filter: Entity): seq<string>
    requires value.FilterValue? && filter.MetricFilter?
  {
    if ALL_FILTER_VALUES in value.values then filter.values else value.values
  }

  type Index = m: map<string, Entity> | forall id :: id in m ==> m[id].MetricFilter? && m[id].id == id

  /** Metric filters by id, later rows replacing earlier ones. */
  function Indexed(filters: seq<Entity>): (index: Index)
    requires forall i :: 0 <= i < |filters| ==> filters[i].MetricFilter?
  {
    if filters == [] then
      map[]
    else
      var last := filters[|filters| - 1];
      Indexed(filters[..|filters| - 1])[last.id := last]
  }

  /** The key under which row i contributes, if it joins a metric filter at all. */
  function KeyAt(values: seq<Entity>, index: Index, i: nat): Option<string>
    requires i < |values| && values[i].FilterValue?
  {
    if values[i].metricFilterId in index then Some(index[values[i].metricFilterId].key) else None
  }

  ghost predicate AllValues(values: seq<Entity>) {
    forall i :: 0 <= i < |values| ==> values[i].FilterValue?
  }

  /** A charge filter's map, row by row. */
  function Joined(values: seq<Entity>, index: Index): FilterValues
    requires AllValues(values)
  {
    if values == [] then
      map[]
    else
      var n := |values| - 1;
      var before := Joined(values[..n], index);
      match KeyAt(values, index, n)
      case None => before
      case Some(key) => before[key := ValuesOf(values[n], index[values[n].metricFilterId])]
  }

  /** Row i is the last to contribute to key. */
  ghost predicate LastFor(values: seq<Entity>, index: Index, key: string, i: nat)
    requires AllValues(values)
  {
    && i < |values| && KeyAt(values, index, i) == Some(key)
    && forall j :: i < j < |values| ==> KeyAt(values, index, j) != Some(key)
  }

  lemma LastForFront(values: seq<Entity>, index: Index, key: string, i: nat)
    requires AllValues(values) && values != [] && KeyAt(values, index, |values| - 1) != Some(key)
    ensures LastFor(values, index, key, i) <==> LastFor(values[..|values| - 1], index, key, i)
  {
    var front := values[..|values| - 1];
    assert forall j :: 0 <= j < |front| ==> KeyAt(values, index, j) == KeyAt(front, index, j);
  }

  /** The map has a key exactly when some row joins a metric filter of that key, and holds
      under it what the last such row stands for. */
  lemma {:induction false} JoinedIsLast(values: seq<Entity>, index: Index, key: string)
    requires AllValues(values)
    ensures key in Joined(values, index) <==> exists i: nat :: LastFor(values, index, key, i)
    ensures forall i: nat :: LastFor(values, index, key, i) ==>
      key in Joined(values, index) && Joined(values, index)[key] == ValuesOf(values[i], index[values[i].metricFilterId])
  {
    if values != [] {
      var n := |values| - 1;
      var front := values[..n];
      JoinedIsLast(front, index, key);
      if KeyAt(values, index, n) == Some(key) {
        assert LastFor(values, index, key, n);
      } else {
        forall i: nat
          ensures LastFor(values, index, key, i) <==> LastFor(front, index, key, i)
        {
          LastForFront(values, index, key, i);
        }
      }
    }
  }

  /** Value row i names a metric filter of that key. */
  predicate NamesKey(values: seq<Entity>, index: Index, key: string, i: int)
    requires 0 <= i < |values| && values[i].FilterValue?
  {
    values[i].metricFilterId in index && index[values[i].metricFilterId].key == key
  }

  /** The same field by field: a key is that of a metric filter which some value row names, and
      what it maps to are the values of the last such row, or all of the metric filter's if that
      row has the marker. */
  lemma JoinedByFields(values: seq<Entity>, index: Index, key: string)
    requires AllValues(values)
    ensures key in Joined(values, index) <==> exists i :: 0 <= i < |values| && NamesKey(values, index, key, i)
    ensures forall i | 0 <= i < |values| && NamesKey(values, index, key, i) && forall j :: i < j < |values| ==> !NamesKey(values, index, key, j) ::
      && key in Joined(values, index)
      && var filter := index[values[i].metricFilterId];
      Joined(values, index)[key] == if "__ALL_FILTER_VALUES__" in values[i].values then filter.values else values[i].values
  {
    JoinedIsLast(values, index, key);
    if i :| 0 <= i < |values| && NamesKey(values, index, key, i) {
      var last := LastOfKey(values, index, key, i);
      assert LastFor(values, index, key, last);
    }
    if i: nat :| LastFor(values, index, key, i) {
      assert NamesKey(values, index, key, i);
    }
    forall i | 0 <= i < |values| && NamesKey(values, index, key, i) && forall j :: i < j < |values| ==> !NamesKey(values, index, key, j)
      ensures LastFor(values, index, key, i)
    {
      forall j | i < j < |values|
        ensures KeyAt(values, index, j) != Some(key)
      {
        assert !NamesKey(values, index, key, j);
      }
    }
  }

  lemma {:induction false} LastOfKey(values: seq<Entity>, index: Index, key: string, i: nat) returns (last: nat)
    requires AllValues(values) && i < |values| && KeyAt(values, index, i) == Some(key)
    ensures LastFor(values, index, key, last)
    decreases |values| - i
  {
    if j :| i < j < |values| && KeyAt(values, index, j) == Some(key) {
      last := LastOfKey(values, index, key, j);
    } else {
      last := i;
    }
  }

  /** The charge's own row, for a charge without filters. */
  function ChargeRow(org: string, code: string, planId: string, charge: Entity): FlatFilter
    requires charge.Charge?
  {
    FlatFilter(org, code, planId, charge.id, charge.updatedAt, None, None, None,
               charge.pricingGroupKeys, charge.payInAdvance, charge.acceptsTargetWallet)
  }

  function FilterRow(org: string, code: string, planId: string, charge: Entity, filter: Entity, joined: FilterValues): FlatFilter
    requires charge.Charge? && filter.ChargeFilter?
  {
    FlatFilter(org, code, planId, charge.id, charge.updatedAt, Some(filter.id), Some(filter.updatedAt), Some(joined),
               filter.pricingGroupKeys, charge.payInAdvance, charge.acceptsTargetWallet)
  }

  /** The states of the cache that one join sees.  Every search is a read of its own, and the
      change consumers may rewrite the cache in between: the metric, its filters, the charges,
      each charge's filters and each filter's values are each from some state. */
  datatype View = View(
    metric: Store,
    metricFilters: Store,
    charges: Store,
    chargeFilters: string -> Store,
    filterValues: string -> Store)

  ghost predicate KeyedView(v: View) {
    && Keyed(v.metric) && Keyed(v.metricFilters) && Keyed(v.charges)
    && (forall chargeId :: Keyed(v.chargeFilters(chargeId)))
    && (forall filterId :: Keyed(v.filterValues(filterId)))
  }

  /** The cache stands still. */
  function Still(store: Store): View {
    View(store, store, store, (chargeId: string) => store, (filterId: string) => store)
  }

  /** What the join is about: an organization's metric code and plan, and the metric. */
  datatype Query = Query(org: string, code: string, planId: string, metricId: string)

  ghost function MetricFilterRows(v: View, q: Query): (rows: seq<Entity>)
    ensures forall i :: 0 <= i < |rows| ==> rows[i].MetricFilter?
  {
    Rows(v.metricFilters, MetricFiltersOf(v.metricFilters, q.org, q.metricId))
  }

  ghost function FilterValueRows(v: View, org: string, chargeFilterId: string): (rows: seq<Entity>)
    ensures AllValues(rows)
  {
    Rows(v.filterValues(chargeFilterId), FilterValuesOf(v.filterValues(chargeFilterId), org, chargeFilterId))
  }

  /** The keys of a charge's filters, where they are looked up. */
  ghost function FiltersAt(v: View, org: string, chargeId: string): set<string> {
    ChargeFiltersOf(v.chargeFilters(chargeId), org, chargeId)
  }

  /** The keys of the charges. */
  ghost function ChargesAt(v: View, q: Query): set<string> {
    ChargesOf(v.charges, q.org, q.planId, q.metricId)
  }

  ghost function ChargeFilterRows(v: View, org: string, chargeId: string): (rows: seq<Entity>)
    ensures forall i :: 0 <= i < |rows| ==> rows[i].ChargeFilter?
  {
    Rows(v.chargeFilters(chargeId), FiltersAt(v, org, chargeId))
  }

  ghost function IndexOf(v: View, q: Query): Index {
    Indexed(MetricFilterRows(v, q))
  }

  ghost function FilterMap(v: View, q: Query, filter: Entity): FilterValues {
    Joined(FilterValueRows(v, q.org, filter.id), IndexOf(v, q))
  }

  /** One row per charge filter. */
  ghost function FilterRows(v: View, q: Query, charge: Entity, filters: seq<Entity>): (rows: seq<FlatFilter>)
    requires charge.Charge? && forall i :: 0 <= i < |filters| ==> filters[i].ChargeFilter?
    ensures |rows| == |filters|
    ensures forall i :: 0 <= i < |filters| ==>
      rows[i] == FilterRow(q.org, q.code, q.planId, charge, filters[i], FilterMap(v, q, filters[i]))
  {
    seq(|filters|, i requires 0 <= i < |filters| =>
      FilterRow(q.org, q.code, q.planId, charge, filters[i], FilterMap(v, q, filters[i])))
  }

  ghost function RowsOfCharge(v: View, q: Query, charge: Entity): seq<FlatFilter>
    requires charge.Charge?
  {
    var filters := ChargeFilterRows(v, q.org, charge.id);
    if filters == [] then [ChargeRow(q.org, q.code, q.planId, charge)] else FilterRows(v, q, charge, filters)
  }

  /** The rows of each charge. */
  ghost function Groups(v: View, q: Query, charges: seq<Entity>): (groups: seq<seq<FlatFilter>>)
    requires forall i :: 0 <= i < |charges| ==> charges[i].Charge?
    ensures |groups| == |charges| && forall i :: 0 <= i < |charges| ==> groups[i] == RowsOfCharge(v, q, charges[i])
  {
    seq(|charges|, i requires 0 <= i < |charges| => RowsOfCharge(v, q, charges[i]))
  }

  /** One group after the other. */
  function Flat(groups: seq<seq<FlatFilter>>): seq<FlatFilter> {
    if groups == [] then [] else Flat(groups[..|groups| - 1]) + groups[|groups| - 1]
  }

  ghost function RowsOfCharges(v: View, q: Query, charges: seq<Entity>): seq<FlatFilter>
    requires forall i :: 0 <= i < |charges| ==> charges[i].Charge?
  {
    Flat(Groups(v, q, charges))
  }

  ghost function Charges(v: View, q: Query): (charges: seq<Entity>)
    ensures forall i :: 0 <= i < |charges| ==> charges[i].Charge?
  {
    Rows(v.charges, ChargesAt(v, q))
  }

  /** The whole join, charges and filters in key order. */
  ghost function Join(v: View, q: Query): seq<FlatFilter> {
    RowsOfCharges(v, q, Charges(v, q))
  }

  /** Rows found in a keyed store have colon-free ids. */
  lemma FoundRow(store: Store, s: set<string>, i: nat)
    requires Keyed(store) && s <= store.Keys && i < |Rows(store, s)|
    ensures IdsColonFree(Rows(store, s)[i]) && exists k :: k in s && store[k] == Rows(store, s)[i]
  {
    var k := InOrder(s)[i];
    assert k in s;
  }

  method IndexFilters(filters: seq<Entity>) returns (index: Index)
    requires forall i :: 0 <= i < |filters| ==> filters[i].MetricFilter?
    ensures index == Indexed(filters)
  {
    index := map[];
    for i := 0 to |filters|
      invariant index == Indexed(filters[..i])
    {
      assert filters[..i + 1][..i] == filters[..i];
      index := index[filters[i].id := filters[i]];
    }
    assert filters[..|filters|] == filters;
  }

  method JoinValues(values: seq<Entity>, index: Index) returns (joined: FilterValues)
    requires AllValues(values)
    ensures joined == Joined(values, index)
  {
    joined := map[];
    for i := 0 to |values|
      invariant joined == Joined(values[..i], index)
    {
      assert values[..i + 1][..i] == values[..i];
      var value := values[i];
      if value.metricFilterId !in index {
        continue;
      }
      var filter := index[value.metricFilterId];
      var chosen: seq<string>;
      if ALL_FILTER_VALUES in value.values {
        chosen := filter.values;
      } else {
        chosen := value.values;
      }
      joined := joined[filter.key := chosen];
    }
    assert values[..|values|] == values;
  }

  /** The searches, with what the keys say about the rows found. */
  method FindChargeFilters(v: View, org: string, chargeId: string) returns (filters: seq<Entity>)
    requires KeyedView(v) && ColonFree(org) && ColonFree(chargeId)
    ensures filters == ChargeFilterRows(v, org, chargeId)
    ensures forall i :: 0 <= i < |filters| ==> ColonFree(filters[i].id)
  {
    filters := SearchChargeFilter(v.chargeFilters(chargeId), org, chargeId);
    forall i | 0 <= i < |filters|
      ensures ColonFree(filters[i].id)
    {
      FoundRow(v.chargeFilters(chargeId), FiltersAt(v, org, chargeId), i);
    }
  }

  method FindCharges(v: View, q: Query) returns (charges: seq<Entity>)
    requires KeyedView(v) && ColonFree(q.org) && ColonFree(q.planId) && ColonFree(q.metricId)
    ensures charges == Charges(v, q)
    ensures forall i :: 0 <= i < |charges| ==> ColonFree(charges[i].id)
  {
    charges := SearchCharge(v.charges, q.org, q.planId, q.metricId);
    forall i | 0 <= i < |charges|
      ensures ColonFree(charges[i].id)
    {
      FoundRow(v.charges, ChargesAt(v, q), i);
    }
  }

  method FindIndex(v: View, q: Query) returns (index: Index)
    requires KeyedView(v) && ColonFree(q.org) && ColonFree(q.metricId)
    ensures index == IndexOf(v, q)
  {
    var filters := SearchMetricFilters(v.metricFilters, q.org, q.metricId);
    assert filters == MetricFilterRows(v, q);
    index := IndexFilters(filters);
  }

  method BuildRow(v: View, q: Query, charge: Entity, filter: Entity, index: Index) returns (row: FlatFilter)
    requires KeyedView(v) && ColonFree(q.org) && index == IndexOf(v, q)
    requires charge.Charge? && filter.ChargeFilter? && ColonFree(filter.id)
    ensures IsRowOf(v, q, charge, filter, row)
  {
    var values := SearchChargeFilterValue(v.filterValues(filter.id), q.org, filter.id);
    assert values == FilterValueRows(v, q.org, filter.id);
    var joined := JoinValues(values, index);
    row := FilterRow(q.org, q.code, q.planId, charge, filter, joined);
  }

  ghost predicate IsRowOf(v: View, q: Query, charge: Entity, filter: Entity, row: FlatFilter) {
    charge.Charge? && filter.ChargeFilter? && row == FilterRow(q.org, q.code, q.planId, charge, filter, FilterMap(v, q, filter))
  }

  ghost predicate AreFilters(filters: seq<Entity>) {
    forall i :: 0 <= i < |filters| ==> filters[i].ChargeFilter? && ColonFree(filters[i].id)
  }

  /** One more filter adds its row. */
  lemma RowOfOneMore(v: View, q: Query, charge: Entity, filters: seq<Entity>, i: nat, rows: seq<FlatFilter>, row: FlatFilter)
    requires charge.Charge? && AreFilters(filters) && i < |filters|
    requires rows == FilterRows(v, q, charge, filters[..i]) && IsRowOf(v, q, charge, filters[i], row)
    ensures rows + [row] == FilterRows(v, q, charge, filters[..i + 1])
  {
  }

  method BuildForFilters(v: View, q: Query, charge: Entity, filters: seq<Entity>, index: Index) returns (rows: seq<FlatFilter>)
    requires KeyedView(v) && ColonFree(q.org) && charge.Charge? && index == IndexOf(v, q) && AreFilters(filters)
    ensures rows == FilterRows(v, q, charge, filters)
  {
    rows := [];
    for i := 0 to |filters|
      invariant rows == FilterRows(v, q, charge, filters[..i])
    {
      var row := BuildRow(v, q, charge, filters[i], index);
      RowOfOneMore(v, q, charge, filters, i, rows, row);
      rows := rows + [row];
    }
    assert filters[..|filters|] == filters;
  }

  method BuildForCharge(v: View, q: Query, charge: Entity, index: Index) returns (rows: seq<FlatFilter>)
    requires KeyedView(v) && ColonFree(q.org) && charge.Charge? && ColonFree(charge.id) && index == IndexOf(v, q)
    ensures rows == RowsOfCharge(v, q, charge)
  {
    var filters := FindChargeFilters(v, q.org, charge.id);
    if |filters| == 0 {
      return [ChargeRow(q.org, q.code, q.planId, charge)];
    }
    rows := BuildForFilters(v, q, charge, filters, index);
  }

  /** One more charge adds its rows. */
  lemma RowsOfOneMore(v: View, q: Query, charges: seq<Entity>, i: nat)
    requires i < |charges| && forall j :: 0 <= j < |charges| ==> charges[j].Charge?
    ensures RowsOfCharges(v, q, charges[..i + 1]) == RowsOfCharges(v, q, charges[..i]) + RowsOfCharge(v, q, charges[i])
  {
    assert Groups(v, q, charges[..i + 1])[..i] == Groups(v, q, charges[..i]);
  }

  method BuildForCharges(v: View, q: Query, charges: seq<Entity>, index: Index) returns (rows: seq<FlatFilter>)
    requires KeyedView(v) && ColonFree(q.org) && index == IndexOf(v, q)
    requires forall i :: 0 <= i < |charges| ==> charges[i].Charge? && ColonFree(charges[i].id)
    ensures rows == RowsOfCharges(v, q, charges)
  {
    rows := [];
    for i := 0 to |charges|
      invariant rows == RowsOfCharges(v, q, charges[..i])
    {
      RowsOfOneMore(v, q, charges, i);
      var more := BuildForCharge(v, q, charges[i], index);
      rows := rows + more;
    }
    assert charges[..|charges|] == charges;
  }

  /** GetBillableMetric: the key is that of one metric only. */
  lemma MetricKey(store: Store, org: string, code: string)
    requires Keyed(store) && ColonFree(org) && "bm:" + org + ":" + code in store
    ensures var e := store["bm:" + org + ":" + code]; e.Metric? && e.org == org && e.code == code
  {
    var key := "bm:" + org + ":" + code;
    var e, m := store[key], Metric("", org, code, "", "", "");
    MetricKeyText(m);
    TablesAreDisjoint(e, m);
    KeyDeterminesParts(e, m);
  }

  lemma MetricKeyText(m: Entity)
    requires m.Metric?
    ensures KeyOf(m) == "bm:" + m.org + ":" + m.code
  {
    var three, two, one := ["bm", m.org, m.code], [m.org, m.code], [m.code];
    assert three[1..] == two && two[1..] == one;
    assert Keys.Join(two) == m.org + ":" + Keys.Join(one);
    assert "bm:" == "bm" + ":";
  }

  /** BuildFlatFilters.  The only failure that is not the store's own is a missing metric. */
  method BuildFlatFilters(v: View, org: string, code: string, planId: string) returns (result: Option<seq<FlatFilter>>)
    requires KeyedView(v) && ColonFree(org) && ColonFree(planId)
    ensures var key := "bm:" + org + ":" + code;
      result == if key in v.metric then Some(Join(v, Query(org, code, planId, v.metric[key].id))) else None
  {
    var key := "bm:" + org + ":" + code;
    if key !in v.metric {
      return None;
    }
    MetricKey(v.metric, org, code);
    assert IdsColonFree(v.metric[key]);
    var q := Query(org, code, planId, v.metric[key].id);
    var index := FindIndex(v, q);
    var charges := FindCharges(v, q);
    var rows := BuildForCharges(v, q, charges, index);
    result := Some(rows);
  }

  /** A metric's filters all have different ids, so indexing them loses none. */
  lemma {:induction false} IndexedKeepsAll(filters: seq<Entity>, i: nat)
    requires forall j :: 0 <= j < |filters| ==> filters[j].MetricFilter?
    requires forall j, k :: 0 <= j < k < |filters| ==> filters[j].id != filters[k].id
    requires i < |filters|
    ensures filters[i].id in Indexed(filters) && Indexed(filters)[filters[i].id] == filters[i]
  {
    if i < |filters| - 1 {
      IndexedKeepsAll(filters[..|filters| - 1], i);
    }
  }

  /** A row of one of these tables is determined by its table, parents and id. */
  lemma SameRow(store: Store, k: string, k': string)
    requires Keyed(store) && k in store && k' in store
    ensures Parts(store[k]) == Parts(store[k']) ==> k == k'
  {
  }

  lemma IndexIsFaithful(v: View, q: Query, id: string)
    requires KeyedView(v)
    ensures id in IndexOf(v, q) <==> exists k :: k in MetricFiltersOf(v.metricFilters, q.org, q.metricId) && v.metricFilters[k].id == id
    ensures forall k :: k in MetricFiltersOf(v.metricFilters, q.org, q.metricId) && v.metricFilters[k].id == id ==>
      id in IndexOf(v, q) && IndexOf(v, q)[id] == v.metricFilters[k]
  {
    var s := MetricFiltersOf(v.metricFilters, q.org, q.metricId);
    var rows, ks := MetricFilterRows(v, q), InOrder(s);
    forall j, k | 0 <= j < k < |rows|
      ensures rows[j].id != rows[k].id
    {
      BeforeStrict(ks[j], ks[k]);
      SameRow(v.metricFilters, ks[j], ks[k]);
    }
    forall k | k in s && v.metricFilters[k].id == id
      ensures id in IndexOf(v, q) && IndexOf(v, q)[id] == v.metricFilters[k]
    {
      var i :| 0 <= i < |ks| && ks[i] == k;
      IndexedKeepsAll(rows, i);
    }
    if id in IndexOf(v, q) {
      IndexedOnlyRows(rows, id);
    }
  }

  lemma {:induction false} IndexedOnlyRows(filters: seq<Entity>, id: string)
    requires forall j :: 0 <= j < |filters| ==> filters[j].MetricFilter?
    requires id in Indexed(filters)
    ensures Indexed(filters)[id] in filters
  {
    var front := filters[..|filters| - 1];
    if id != filters[|filters| - 1].id {
      IndexedOnlyRows(front, id);
    }
  }

  /** A charge filter's map has exactly the keys of the metric's filters that the filter's cached
      values name. */
  lemma FilterMapKeys(v: View, q: Query, filter: Entity, key: string)
    requires KeyedView(v) && filter.ChargeFilter?
    ensures key in FilterMap(v, q, filter) <==>
      exists w, k :: IsValueKey(v, q, filter, key, w, k)
  {
    var s := FilterValuesOf(v.filterValues(filter.id), q.org, filter.id);
    var values, ks := FilterValueRows(v, q.org, filter.id), InOrder(s);
    var index := IndexOf(v, q);
    JoinedByFields(values, index, key);
    if i :| 0 <= i < |values| && NamesKey(values, index, key, i) {
      IndexIsFaithful(v, q, values[i].metricFilterId);
      var k :| k in MetricFiltersOf(v.metricFilters, q.org, q.metricId) && v.metricFilters[k].id == values[i].metricFilterId;
      assert IsValueKey(v, q, filter, key, ks[i], k);
    }
    if w, k :| IsValueKey(v, q, filter, key, w, k) {
      var i :| 0 <= i < |ks| && ks[i] == w;
      IndexIsFaithful(v, q, values[i].metricFilterId);
      assert NamesKey(values, index, key, i);
    }
  }

  /** Value row w of the filter names metric filter k, whose key this is. */
  ghost predicate IsValueKey(v: View, q: Query, filter: Entity, key: string, w: string, k: string) {
    && filter.ChargeFilter?
    && w in FilterValuesOf(v.filterValues(filter.id), q.org, filter.id)
    && k in MetricFiltersOf(v.metricFilters, q.org, q.metricId)
    && v.metricFilters[k].id == v.filterValues(filter.id)[w].metricFilterId && v.metricFilters[k].key == key
  }

  /** Charge row c, and None or a filter row of it, that the join puts together. */
  ghost predicate Paired(v: View, q: Query, c: string, f: Option<string>) {
    && c in ChargesAt(v, q)
    && match f
       case None => FiltersAt(v, q.org, v.charges[c].id) == {}
       case Some(k) => k in FiltersAt(v, q.org, v.charges[c].id)
  }

  ghost function RowFor(v: View, q: Query, c: string, f: Option<string>): FlatFilter
    requires Paired(v, q, c, f)
  {
    match f
    case None => ChargeRow(q.org, q.code, q.planId, v.charges[c])
    case Some(k) => FilterRow(q.org, q.code, q.planId, v.charges[c], v.chargeFilters(v.charges[c].id)[k], FilterMap(v, q, v.chargeFilters(v.charges[c].id)[k]))
  }

  lemma RowsOfChargeAreItsPairs(v: View, q: Query, c: string, row: FlatFilter)
    requires c in ChargesAt(v, q)
    ensures row in RowsOfCharge(v, q, v.charges[c]) <==> exists f :: Paired(v, q, c, f) && row == RowFor(v, q, c, f)
  {
    var s := FiltersAt(v, q.org, v.charges[c].id);
    var filters, ks := ChargeFilterRows(v, q.org, v.charges[c].id), InOrder(s);
    ListsNothing(ks, s);
    if filters == [] {
      assert Paired(v, q, c, None);
    } else {
      var rows := FilterRows(v, q, v.charges[c], filters);
      if row in rows {
        var i :| 0 <= i < |rows| && rows[i] == row;
        assert Paired(v, q, c, Some(ks[i]));
      }
      if f :| Paired(v, q, c, f) && row == RowFor(v, q, c, f) {
        var i :| 0 <= i < |ks| && ks[i] == f.value;
        assert rows[i] == row;
      }
    }
  }

  lemma {:induction false} InFlat(groups: seq<seq<FlatFilter>>, row: FlatFilter)
    ensures row in Flat(groups) <==> exists i :: 0 <= i < |groups| && row in groups[i]
  {
    if groups != [] {
      var n := |groups| - 1;
      InFlat(groups[..n], row);
      assert forall i :: 0 <= i < n ==> groups[..n][i] == groups[i];
    }
  }

  /** Group i of the join is that of the charge at the i-th key. */
  lemma GroupAt(v: View, q: Query, i: nat) returns (c: string)
    requires i < |Charges(v, q)|
    ensures c in ChargesAt(v, q) && Groups(v, q, Charges(v, q))[i] == RowsOfCharge(v, q, v.charges[c])
  {
    c := InOrder(ChargesAt(v, q))[i];
  }

  lemma GroupOf(v: View, q: Query, c: string) returns (i: nat)
    requires c in ChargesAt(v, q)
    ensures i < |Charges(v, q)| && Groups(v, q, Charges(v, q))[i] == RowsOfCharge(v, q, v.charges[c])
  {
    var ks := InOrder(ChargesAt(v, q));
    i :| 0 <= i < |ks| && ks[i] == c;
  }

  lemma JoinedArePaired(v: View, q: Query, row: FlatFilter)
    requires row in Join(v, q)
    ensures exists c, f :: Paired(v, q, c, f) && row == RowFor(v, q, c, f)
  {
    var groups := Groups(v, q, Charges(v, q));
    InFlat(groups, row);
    var i :| 0 <= i < |groups| && row in groups[i];
    var c := GroupAt(v, q, i);
    RowsOfChargeAreItsPairs(v, q, c, row);
  }

  lemma PairedAreJoined(v: View, q: Query, c: string, f: Option<string>)
    requires Paired(v, q, c, f)
    ensures RowFor(v, q, c, f) in Join(v, q)
  {
    var groups := Groups(v, q, Charges(v, q));
    RowsOfChargeAreItsPairs(v, q, c, RowFor(v, q, c, f));
    var i := GroupOf(v, q, c);
    InFlat(groups, RowFor(v, q, c, f));
  }

  /** The join as a relation: its rows are those of the pairs of a matching charge with each
      of its filters, or with none if it has none. */
  lemma JoinIsTheRelation(v: View, q: Query, row: FlatFilter)
    ensures row in Join(v, q) <==> exists c, f :: Paired(v, q, c, f) && row == RowFor(v, q, c, f)
  {
    if row in Join(v, q) {
      JoinedArePaired(v, q, row);
    }
    if c, f :| Paired(v, q, c, f) && row == RowFor(v, q, c, f) {
      PairedAreJoined(v, q, c, f);
    }
  }

  /** The row has the fields of the query and of the charge. */
  predicate CarriesCharge(row: FlatFilter, q: Query, charge: Entity) {
    && row.organizationId == q.org && row.billableMetricCode == q.code && row.planId == q.planId
    && charge.Charge? && row.chargeId == charge.id && row.chargeUpdatedAt == charge.updatedAt
    && row.payInAdvance == charge.payInAdvance && row.acceptsTargetWallet == charge.acceptsTargetWallet
  }

  /** It has no filter, and the charge's pricing keys. */
  predicate CarriesNoFilter(row: FlatFilter, charge: Entity) {
    && row.chargeFilterId == None && row.chargeFilterUpdatedAt == None && row.filters == None
    && charge.Charge? && row.pricingGroupKeys == charge.pricingGroupKeys
  }

  /** It has the fields of the filter, its pricing keys among them, and this map. */
  predicate CarriesFilter(row: FlatFilter, filter: Entity, filters: FilterValues) {
    && filter.ChargeFilter? && row.chargeFilterId == Some(filter.id) && row.chargeFilterUpdatedAt == Some(filter.updatedAt)
    && row.filters == Some(filters) && row.pricingGroupKeys == filter.pricingGroupKeys
  }

  /** Charge c, with a filter of it or with none if it has none, makes up the row. */
  ghost predicate MadeOf(v: View, q: Query, row: FlatFilter, c: string, f: Option<string>) {
    && c in ChargesAt(v, q) && CarriesCharge(row, q, v.charges[c])
    && var filters := FiltersAt(v, q.org, v.charges[c].id);
    match f
    case None => filters == {} && CarriesNoFilter(row, v.charges[c])
    case Some(k) =>
      k in filters &&
      var filter := v.chargeFilters(v.charges[c].id)[k];
      CarriesFilter(row, filter, FilterMap(v, q, filter))
  }

  lemma RowForIsMadeOf(v: View, q: Query, row: FlatFilter, c: string, f: Option<string>)
    ensures MadeOf(v, q, row, c, f) <==> Paired(v, q, c, f) && row == RowFor(v, q, c, f)
  {
  }

  /** The join field by field: a row is in it if and only if it is made of a charge of the metric
      on the plan and one of its filters, or of such a charge without filters. */
  lemma JoinedFields(v: View, q: Query, row: FlatFilter)
    ensures row in Join(v, q) <==> exists c, f :: MadeOf(v, q, row, c, f)
  {
    JoinIsTheRelation(v, q, row);
    forall c, f
      ensures MadeOf(v, q, row, c, f) <==> Paired(v, q, c, f) && row == RowFor(v, q, c, f)
    {
      RowForIsMadeOf(v, q, row, c, f);
    }
  }

  /** No pair is listed twice: a row is told from the others by its charge and filter ids. */
  ghost predicate NoPairTwice(rows: seq<FlatFilter>) {
    forall i, j :: 0 <= i < j < |rows| ==> rows[i].chargeId != rows[j].chargeId || rows[i].chargeFilterId != rows[j].chargeFilterId
  }

  lemma RowsOfChargeNotTwice(v: View, q: Query, charge: Entity)
    requires KeyedView(v) && charge.Charge?
    ensures NoPairTwice(RowsOfCharge(v, q, charge)) && AllOf(RowsOfCharge(v, q, charge), charge.id)
  {
    var filters, ks := ChargeFilterRows(v, q.org, charge.id), InOrder(FiltersAt(v, q.org, charge.id));
    forall i, j | 0 <= i < j < |filters|
      ensures filters[i].id != filters[j].id
    {
      BeforeStrict(ks[i], ks[j]);
      SameRow(v.chargeFilters(charge.id), ks[i], ks[j]);
    }
  }

  /** Group i has rows of charge ids[i] only, none of them twice. */
  ghost predicate AreGroups(groups: seq<seq<FlatFilter>>, ids: seq<string>) {
    |groups| == |ids| && forall i :: 0 <= i < |groups| ==> NoPairTwice(groups[i]) && AllOf(groups[i], ids[i])
  }

  ghost predicate AllOf(rows: seq<FlatFilter>, chargeId: string) {
    forall r :: r in rows ==> r.chargeId == chargeId
  }

  lemma {:induction false} FlatNotTwice(groups: seq<seq<FlatFilter>>, ids: seq<string>)
    requires AreGroups(groups, ids) && forall i, j :: 0 <= i < j < |ids| ==> ids[i] != ids[j]
    ensures NoPairTwice(Flat(groups)) && forall r :: r in Flat(groups) ==> r.chargeId in ids
  {
    if groups != [] {
      var n := |groups| - 1;
      var before := Flat(groups[..n]);
      FlatNotTwice(groups[..n], ids[..n]);
      forall i | 0 <= i < |before|
        ensures before[i].chargeId != ids[n]
      {
        assert before[i] in before;
      }
      ConcatNotTwice(before, groups[n], ids[n]);
    }
  }

  lemma ConcatNotTwice(before: seq<FlatFilter>, more: seq<FlatFilter>, chargeId: string)
    requires NoPairTwice(before) && NoPairTwice(more)
    requires AllOf(more, chargeId)
    requires forall i :: 0 <= i < |before| ==> before[i].chargeId != chargeId
    ensures NoPairTwice(before + more)
  {
  }

  /** The charges have different ids. */
  lemma DistinctCharges(v: View, q: Query) returns (ids: seq<string>)
    requires KeyedView(v)
    ensures |ids| == |Charges(v, q)| && forall i :: 0 <= i < |ids| ==> ids[i] == Charges(v, q)[i].id
    ensures forall i, j :: 0 <= i < j < |ids| ==> ids[i] != ids[j]
  {
    var charges, ks := Charges(v, q), InOrder(ChargesAt(v, q));
    ids := seq(|charges|, i requires 0 <= i < |charges| => charges[i].id);
    forall i, j | 0 <= i < j < |ids|
      ensures ids[i] != ids[j]
    {
      BeforeStrict(ks[i], ks[j]);
      SameRow(v.charges, ks[i], ks[j]);
    }
  }

  lemma JoinedGroups(v: View, q: Query, ids: seq<string>)
    requires KeyedView(v) && |ids| == |Charges(v, q)| && forall i :: 0 <= i < |ids| ==> ids[i] == Charges(v, q)[i].id
    ensures AreGroups(Groups(v, q, Charges(v, q)), ids)
  {
    forall i | 0 <= i < |ids|
      ensures NoPairTwice(Groups(v, q, Charges(v, q))[i]) && AllOf(Groups(v, q, Charges(v, q))[i], ids[i])
    {
      RowsOfChargeNotTwice(v, q, Charges(v, q)[i]);
    }
  }

  lemma JoinListsNoPairTwice(v: View, q: Query)
    requires KeyedView(v)
    ensures NoPairTwice(Join(v, q))
  {
    var ids := DistinctCharges(v, q);
    JoinedGroups(v, q, ids);
    FlatNotTwice(Groups(v, q, Charges(v, q)), ids);
  }
}
