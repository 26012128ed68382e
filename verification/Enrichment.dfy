/** EnrichEvent: an event is joined with its metric, its subscription and, charge by charge,
    the filter it falls under. */
module Enrichment {
  import opened Options
  import opened Results
  import opened Timestamps
  import opened Filters
  import Entities
  import Subscriptions

  const HTTP_RUBY := "http_ruby"
  const TARGET_WALLET_CODE := "target_wallet_code"

  datatype Metadata = Metadata(apiPostProcess: bool, reprocess: bool)

  datatype Event = Event(
    organizationId: string,
    externalSubscriptionId: string,
    transactionId: string,
    code: string,
    properties: Properties,
    source: string,
    timestamp: Timestamp,
    metadata: Option<Metadata>,
    ingestedAt: int)

  datatype EnrichedEvent = EnrichedEvent(
    initial: Event,
    metric: Option<Entities.Entity>,
    subscription: Option<Subscriptions.Sub>,
    properties: Properties,
    seconds: real,
    time: int,
    value: Option<string>,
    flatFilter: Option<FlatFilter>,
    chargeId: Option<string>,
    chargeUpdatedAt: Option<int>,
    chargeFilterId: Option<string>,
    chargeFilterUpdatedAt: Option<int>,
    groupedBy: map<string, string>,
    targetWalletCode: Option<string>)

  type Metric = e: Entities.Entity | e.Metric? witness Entities.Metric("", "", "", "", "", "")

  /** Where the data comes from, cache or database, and the expression evaluator, which is a
      foreign library.  A subscription lookup that finds nothing is a failure that is not
      captured. */
  datatype Sources = Sources(
    metric: (string, string) -> Result<Metric>,
    subscription: (string, string, int) -> Result<Subscriptions.Sub>,
    filters: (string, string, string) -> Result<seq<FlatFilter>>,
    evaluate: (string, EnrichedEvent) -> Option<string>)

  predicate IsReprocess(ev: Event) {
    ev.metadata.Some? && ev.metadata.value.reprocess
  }

  predicate NotApiPostProcessed(ev: Event) {
    ev.source != HTTP_RUBY || ev.metadata.None? || !ev.metadata.value.apiPostProcess
  }

  /** ToEnrichedEvent */
  function ToEnrichedEvent(ev: Event): Result<EnrichedEvent> {
    var seconds, time := ToSeconds(ev.timestamp), ToTime(ev.timestamp);
    if seconds.None? || time.None? then
      NonRetryable(Failed("timestamp"))
    else
      Success(EnrichedEvent(ev, None, None, ev.properties, seconds.value, time.value, None,
      None, None, None, None, None, map[], None))
  }

  /** fmt.Sprintf("%v", properties[name]) */
  function Rendered(props: Properties, name: string): string {
    if Present(props, name) then props[name].text else "<nil>"
  }

  /** Whether the metric's expression has to be evaluated for this event. */
  predicate NeedsEvaluation(e: EnrichedEvent, m: Metric) {
    e.initial.source != HTTP_RUBY && m.expression != ""
  }

  /** enrichWithBillableMetric */
  function WithMetric(src: Sources, e: EnrichedEvent, m: Metric): Result<EnrichedEvent> {
    var f := e.(metric := Some(m));
    var evaluated := if NeedsEvaluation(e, m) then src.evaluate(m.expression, f) else None;
    if NeedsEvaluation(e, m) && evaluated.None? then
      Wrapped(NonRetryable(Failed<bool>("expression")), "evaluate_expression", "Error evaluating custom expression")
    else
      var props := if NeedsEvaluation(e, m) then f.properties[m.fieldName := Value(evaluated.value)] else f.properties;
      Success(f.(properties := props,
      value := Some(if m.aggregation == "count" then "1" else Rendered(props, m.fieldName))))
  }

  /** EnrichEvent up to the charges. */
  function BeforeCharges(src: Sources, ev: Event): Result<EnrichedEvent> {
    var built := ToEnrichedEvent(ev);
    if built.Failure? then
      Wrapped(built, "build_enriched_event", "Error while converting event to enriched event")
    else
      var metric := src.metric(ev.organizationId, ev.code);
      if metric.Failure? then
        Wrapped(metric, "fetch_billable_metric", "Error fetching billable metric")
      else
        var measured := WithMetric(src, built.value, metric.value);
        if measured.Failure? then
          Wrapped(measured, measured.code, measured.message)
        else
          var sub := src.subscription(ev.organizationId, ev.externalSubscriptionId, measured.value.time);
          match sub
          case Success(s) => Success(measured.value.(subscription := Some(s)))
          case Failure(_, _, _, _, capture) =>
            if capture then
              Wrapped(sub, "fetch_subscription", "Error fetching subscription")
            else
              measured
  }

  /** The properties the event is grouped by, once a filter is chosen. */
  function Grouping(props: Properties, keys: seq<string>): map<string, string> {
    if keys == [] then
      map[]
    else
      var last := keys[|keys| - 1];
      Grouping(props, keys[..|keys| - 1])[last := if Present(props, last) then props[last].text else ""]
  }

  predicate TargetsWallet(f: FlatFilter, props: Properties) {
    f.acceptsTargetWallet && Present(props, TARGET_WALLET_CODE)
  }

  /** The copy of an event for one charge, given the filter chosen for it. */
  function Bucket(e: EnrichedEvent, f: FlatFilter): EnrichedEvent {
    var grouped := Grouping(e.properties, f.pricingGroupKeys);
    var wallet := TargetsWallet(f, e.properties);
    e.(flatFilter := Some(f), chargeId := Some(f.chargeId), chargeUpdatedAt := Some(f.chargeUpdatedAt),
    chargeFilterId := f.chargeFilterId, chargeFilterUpdatedAt := f.chargeFilterUpdatedAt,
    groupedBy := if wallet then grouped[TARGET_WALLET_CODE := e.properties[TARGET_WALLET_CODE].text] else grouped,
    targetWalletCode := if wallet then Some(e.properties[TARGET_WALLET_CODE].text) else e.targetWalletCode)
  }

  lemma {:induction false} GroupingHolds(props: Properties, keys: seq<string>, k: string)
    ensures k in Grouping(props, keys) <==> k in keys
    ensures k in keys ==> Grouping(props, keys)[k] == if Present(props, k) then props[k].text else ""
  {
    if keys != [] {
      GroupingHolds(props, keys[..|keys| - 1], k);
      assert keys == keys[..|keys| - 1] + [keys[|keys| - 1]];
    }
  }

  /** The event is grouped by exactly the filter's pricing keys, and by the wallet when the
      filter accepts one and the event names one; a missing property groups as "". */
  lemma GroupedByKeysAndWallet(e: EnrichedEvent, f: FlatFilter, k: string)
    ensures var grouped, named := Bucket(e, f).groupedBy, k in e.properties && e.properties[k].Value?;
      && (k in grouped <==> k in f.pricingGroupKeys || (k == "target_wallet_code" && f.acceptsTargetWallet && named))
      && (k in grouped ==> grouped[k] == if named then e.properties[k].text else "")
    ensures var props := e.properties;
      Bucket(e, f).targetWalletCode ==
        if f.acceptsTargetWallet && "target_wallet_code" in props && props["target_wallet_code"].Value? then Some(props["target_wallet_code"].text)
        else e.targetWalletCode
  {
    GroupingHolds(e.properties, f.pricingGroupKeys, k);
  }

  /** enrichWithPricingGroupKeys, on a copy whose GroupedBy is a fresh map. */
  method EnrichWithPricingGroupKeys(e: EnrichedEvent, f: FlatFilter) returns (enriched: EnrichedEvent)
    requires e.groupedBy == map[]
    ensures enriched == Bucket(e, f)
  {
    var groupedBy: map<string, string> := map[];
    for i := 0 to |f.pricingGroupKeys|
      invariant groupedBy == Grouping(e.properties, f.pricingGroupKeys[..i])
    {
      var key := f.pricingGroupKeys[i];
      assert f.pricingGroupKeys[..i + 1][..i] == f.pricingGroupKeys[..i];
      if Present(e.properties, key) {
        groupedBy := groupedBy[key := e.properties[key].text];
      } else {
        groupedBy := groupedBy[key := ""];
      }
    }
    assert f.pricingGroupKeys[..|f.pricingGroupKeys|] == f.pricingGroupKeys;
    enriched := e.(flatFilter := Some(f), chargeId := Some(f.chargeId), chargeUpdatedAt := Some(f.chargeUpdatedAt),
    chargeFilterId := f.chargeFilterId, chargeFilterUpdatedAt := f.chargeFilterUpdatedAt, groupedBy := groupedBy);
    if f.acceptsTargetWallet {
      if Present(e.properties, TARGET_WALLET_CODE) {
        var formatted := e.properties[TARGET_WALLET_CODE].text;
        enriched := enriched.(groupedBy := groupedBy[TARGET_WALLET_CODE := formatted], targetWalletCode := Some(formatted));
      }
    }
  }

  /** A charge's filters, in the order they come. */
  function OfCharge(filters: seq<FlatFilter>, chargeId: string): (group: seq<FlatFilter>)
    ensures forall f :: f in group <==> f in filters && f.chargeId == chargeId
  {
    if filters == [] then
      []
    else
      var last := filters[|filters| - 1];
      assert filters == filters[..|filters| - 1] + [last];
      OfCharge(filters[..|filters| - 1], chargeId) + if last.chargeId == chargeId then [last] else []
  }

  function ChargeIds(filters: seq<FlatFilter>): set<string> {
    set f | f in filters :: f.chargeId
  }

  /** Grouping by charge loses no filter and doubles none: each filter is in the group of its
      own charge as often as it was listed, and in no other. */
  lemma {:induction false} GroupsConserveFilters(filters: seq<FlatFilter>, f: FlatFilter, chargeId: string)
    ensures multiset(OfCharge(filters, chargeId))[f] == if f.chargeId == chargeId then multiset(filters)[f] else 0
  {
    if filters != [] {
      var front, last := filters[..|filters| - 1], filters[|filters| - 1];
      GroupsConserveFilters(front, f, chargeId);
      assert filters == front + [last];
      if last.chargeId == chargeId {
        assert OfCharge(filters, chargeId) == OfCharge(front, chargeId) + [last];
      } else {
        assert OfCharge(filters, chargeId) == OfCharge(front, chargeId);
      }
    }
  }

  ghost predicate IsChargeIndex(charges: map<string, seq<FlatFilter>>, filters: seq<FlatFilter>) {
    charges.Keys == ChargeIds(filters) && forall c :: c in charges ==> charges[c] == OfCharge(filters, c)
  }

  lemma OfAppended(front: seq<FlatFilter>, f: FlatFilter, c: string)
    ensures OfCharge(front + [f], c) == OfCharge(front, c) + if f.chargeId == c then [f] else []
  {
    assert (front + [f])[..|front|] == front;
  }

  lemma {:induction false} NoGroup(filters: seq<FlatFilter>, c: string)
    requires c !in ChargeIds(filters)
    ensures OfCharge(filters, c) == []
  {
    if filters != [] {
      var front, last := filters[..|filters| - 1], filters[|filters| - 1];
      assert last in filters && forall f :: f in front ==> f in filters;
      NoGroup(front, c);
    }
  }

  lemma OneMoreFilter(charges: map<string, seq<FlatFilter>>, front: seq<FlatFilter>, f: FlatFilter)
    requires IsChargeIndex(charges, front)
    ensures var group := if f.chargeId in charges then charges[f.chargeId] else [];
      IsChargeIndex(charges[f.chargeId := group + [f]], front + [f])
  {
    var group := if f.chargeId in charges then charges[f.chargeId] else [];
    var charges' := charges[f.chargeId := group + [f]];
    assert ChargeIds(front + [f]) == ChargeIds(front) + {f.chargeId};
    forall c | c in charges'
      ensures charges'[c] == OfCharge(front + [f], c)
    {
      OfAppended(front, f, c);
      if c !in charges {
        NoGroup(front, c);
      }
    }
  }

  /** The index by charge id. */
  method IndexByCharge(filters: seq<FlatFilter>) returns (charges: map<string, seq<FlatFilter>>)
    ensures IsChargeIndex(charges, filters)
  {
    charges := map[];
    for i := 0 to |filters|
      invariant IsChargeIndex(charges, filters[..i])
    {
      var filter := filters[i];
      assert filters[..i + 1] == filters[..i] + [filter];
      OneMoreFilter(charges, filters[..i], filter);
      if filter.chargeId !in charges {
        charges := charges[filter.chargeId := []];
      }
      charges := charges[filter.chargeId := charges[filter.chargeId] + [filter]];
    }
    assert filters[..|filters|] == filters;
  }

  /** The event's copy for one of its charges. */
  ghost function BucketOf(e: EnrichedEvent, filters: seq<FlatFilter>, chargeId: string): EnrichedEvent
    requires chargeId in ChargeIds(filters)
  {
    var f :| f in filters && f.chargeId == chargeId;
    assert f in OfCharge(filters, chargeId);
    Bucket(e, Choice(OfCharge(filters, chargeId), e.properties))
  }

  /** events are the event's copies for the charges of `order`, each charge once. */
  ghost predicate AreBuckets(events: seq<EnrichedEvent>, e: EnrichedEvent, filters: seq<FlatFilter>, order: seq<string>) {
    && SomeBuckets(events, e, filters, order)
    && (forall i, j :: 0 <= i < j < |order| ==> order[i] != order[j])
    && (forall c :: c in order <==> c in ChargeIds(filters))
  }

  ghost predicate SomeBuckets(events: seq<EnrichedEvent>, e: EnrichedEvent, filters: seq<FlatFilter>, order: seq<string>) {
    && |events| == |order|
    && (forall i :: 0 <= i < |order| ==> order[i] in ChargeIds(filters) && events[i] == BucketOf(e, filters, order[i]))
  }

  /** x is about the same event as e, enriched with the same metric and subscription. */
  predicate SameEvent(x: EnrichedEvent, e: EnrichedEvent) {
    && x.initial == e.initial && x.metric == e.metric && x.subscription == e.subscription
    && x.properties == e.properties && x.seconds == e.seconds && x.time == e.time && x.value == e.value
  }

  /** The charge fields of a copy are those of its filter. */
  predicate CarriesItsFilter(x: EnrichedEvent) {
    && x.flatFilter.Some?
    && var f := x.flatFilter.value;
    && x.chargeId == Some(f.chargeId) && x.chargeUpdatedAt == Some(f.chargeUpdatedAt)
    && x.chargeFilterId == f.chargeFilterId && x.chargeFilterUpdatedAt == f.chargeFilterUpdatedAt
  }

  /** A bucket carries its charge's id. */
  lemma BucketCarriesCharge(e: EnrichedEvent, filters: seq<FlatFilter>, chargeId: string)
    requires chargeId in ChargeIds(filters)
    ensures BucketOf(e, filters, chargeId).chargeId == Some(chargeId) && BucketOf(e, filters, chargeId).flatFilter.Some?
    ensures BucketOf(e, filters, chargeId).initial == e.initial && BucketOf(e, filters, chargeId).subscription == e.subscription
    ensures SameEvent(BucketOf(e, filters, chargeId), e) && CarriesItsFilter(BucketOf(e, filters, chargeId))
  {
    var f :| f in filters && f.chargeId == chargeId;
    var group := OfCharge(filters, chargeId);
    assert f in group;
    var choice := Choice(group, e.properties);
    assert forall g :: g in group ==> g.chargeId == chargeId;
    assert choice.chargeId == chargeId;
  }

  /** A charge's copy has no filter id when none of its filters match, and otherwise that of a
      matching filter of the charge. */
  lemma BucketFilter(e: EnrichedEvent, filters: seq<FlatFilter>, chargeId: string)
    requires chargeId in ChargeIds(filters)
    ensures var b, group := BucketOf(e, filters, chargeId), OfCharge(filters, chargeId);
      && group != [] && b.flatFilter.Some? && IsChoice(group, e.properties, b.flatFilter.value)
      && (NoCandidate(group, e.properties) ==>
            b.chargeFilterId == None && b.chargeFilterUpdatedAt == None && IsDefaultOf(b.flatFilter.value, group[0]))
      && (!NoCandidate(group, e.properties) ==> b.flatFilter.value in filters && b.flatFilter.value.chargeId == chargeId)
  {
    var f :| f in filters && f.chargeId == chargeId;
    var group := OfCharge(filters, chargeId);
    assert f in group;
    ChoiceFields(group, e.properties, Choice(group, e.properties));
  }

  /** Go visits the charges in no particular order; the buckets are the same whichever it is,
      each of them once. */
  lemma BucketsIndependentOfOrder(e: EnrichedEvent, filters: seq<FlatFilter>,
                                  events: seq<EnrichedEvent>, order: seq<string>,
                                  events': seq<EnrichedEvent>, order': seq<string>)
    requires AreBuckets(events, e, filters, order) && AreBuckets(events', e, filters, order')
    ensures multiset(events) == multiset(events')
    ensures forall b :: multiset(events)[b] == if exists c :: c in ChargeIds(filters) && b == BucketOf(e, filters, c) then 1 else 0
  {
    forall b: EnrichedEvent
      ensures multiset(events)[b] == multiset(events')[b] == if exists c :: c in ChargeIds(filters) && b == BucketOf(e, filters, c) then 1 else 0
    {
      BucketOnce(e, filters, events, order, b);
      BucketOnce(e, filters, events', order', b);
    }
  }

  lemma BucketOnce(e: EnrichedEvent, filters: seq<FlatFilter>, events: seq<EnrichedEvent>, order: seq<string>, b: EnrichedEvent)
    requires AreBuckets(events, e, filters, order)
    ensures multiset(events)[b] == if exists c :: c in ChargeIds(filters) && b == BucketOf(e, filters, c) then 1 else 0
  {
    forall i, j | 0 <= i < j < |events|
      ensures events[i] != events[j]
    {
      BucketCarriesCharge(e, filters, order[i]);
      BucketCarriesCharge(e, filters, order[j]);
    }
    CountOnce(events, b);
    if c :| c in ChargeIds(filters) && b == BucketOf(e, filters, c) {
      var i :| 0 <= i < |order| && order[i] == c;
      assert events[i] == b;
    }
  }

  lemma {:induction false} CountOnce(events: seq<EnrichedEvent>, b: EnrichedEvent)
    requires forall i, j :: 0 <= i < j < |events| ==> events[i] != events[j]
    ensures multiset(events)[b] == if b in events then 1 else 0
  {
    if events != [] {
      var n := |events| - 1;
      CountOnce(events[..n], b);
      assert events == events[..n] + [events[n]];
    }
  }

  /** The copy for one charge. */
  method BuildBucket(e: EnrichedEvent, ghost filters: seq<FlatFilter>, group: seq<FlatFilter>, ghost chargeId: string)
    returns (copy: EnrichedEvent)
    requires e.groupedBy == map[] && chargeId in ChargeIds(filters) && group == OfCharge(filters, chargeId)
    ensures copy == BucketOf(e, filters, chargeId)
  {
    assert group != [] by {
      var f :| f in filters && f.chargeId == chargeId;
      assert f in group;
    }
    var choice := MatchingFilter(group, e.properties);
    ChoiceIsUnique(group, e.properties, choice, Choice(group, e.properties));
    copy := EnrichWithPricingGroupKeys(e, choice);
  }

  lemma OneMoreBucket(events: seq<EnrichedEvent>, e: EnrichedEvent, filters: seq<FlatFilter>, order: seq<string>, c: string)
    requires SomeBuckets(events, e, filters, order) && c in ChargeIds(filters)
    ensures SomeBuckets(events + [BucketOf(e, filters, c)], e, filters, order + [c])
  {
  }

  /** The loop over the charges; `order` is the order in which Go happens to visit them. */
  method BuildBuckets(e: EnrichedEvent, filters: seq<FlatFilter>) returns (events: seq<EnrichedEvent>)
    requires e.groupedBy == map[]
    ensures exists order :: AreBuckets(events, e, filters, order)
  {
    var charges := IndexByCharge(filters);
    events := [];
    ghost var order: seq<string> := [];
    var rest := charges.Keys;
    while rest != {}
      invariant rest <= charges.Keys
      invariant forall i, j :: 0 <= i < j < |order| ==> order[i] != order[j]
      invariant forall c :: c in order <==> c in ChargeIds(filters) && c !in rest
      invariant SomeBuckets(events, e, filters, order)
      decreases rest
    {
      var c :| c in rest;
      rest := rest - {c};
      var copy := BuildBucket(e, filters, charges[c], c);
      OneMoreBucket(events, e, filters, order, c);
      events := events + [copy];
      order := order + [c];
    }
    assert AreBuckets(events, e, filters, order);
  }

  /** enrichWithChargeInfo */
  method EnrichWithChargeInfo(src: Sources, e: EnrichedEvent) returns (result: Result<seq<EnrichedEvent>>)
    requires e.groupedBy == map[]
    ensures exists order :: ChargesDone(src, e, result, order)
  {
    if e.subscription.None? {
      result := Success([e]);
      assert ChargesDone(src, e, result, []);
      return;
    }
    var found := src.filters(e.initial.organizationId, e.initial.code, e.subscription.value.planId);
    if found.Failure? {
      result := Failed(found.error);
      assert ChargesDone(src, e, result, []);
      return;
    }
    if |found.value| == 0 {
      result := Success([e]);
      assert ChargesDone(src, e, result, []);
      return;
    }
    var events := BuildBuckets(e, found.value);
    ghost var order :| AreBuckets(events, e, found.value, order);
    result := Success(events);
    assert ChargesDone(src, e, result, order);
  }

  /** What enrichWithChargeInfo returns: the event itself when there is no subscription or no
      filter, a failure when the lookup fails, otherwise one bucket per charge. */
  ghost predicate ChargesDone(src: Sources, e: EnrichedEvent, result: Result<seq<EnrichedEvent>>, order: seq<string>) {
    if e.subscription.None? then
      result == Success([e])
    else
      var found := src.filters(e.initial.organizationId, e.initial.code, e.subscription.value.planId);
      match found
      case Failure(error, _, _, _, _) => result == Failed(error)
      case Success(filters) =>
        if filters == [] then result == Success([e])
        else result.Success? && AreBuckets(result.value, e, filters, order)
  }

  /** enrichWithBillableMetric, with evaluateExpression. */
  method EnrichWithBillableMetric(src: Sources, e: EnrichedEvent, m: Metric) returns (result: Result<EnrichedEvent>)
    ensures result == WithMetric(src, e, m)
  {
    var enriched := e.(metric := Some(m));
    if e.initial.source != HTTP_RUBY {
      if m.expression != "" {
        var evaluated := src.evaluate(m.expression, enriched);
        if evaluated.None? {
          return Wrapped(NonRetryable(Failed<bool>("expression")), "evaluate_expression", "Error evaluating custom expression");
        }
        enriched := enriched.(properties := enriched.properties[m.fieldName := Value(evaluated.value)]);
      }
    }
    if m.aggregation == "count" {
      enriched := enriched.(value := Some("1"));
    } else {
      enriched := enriched.(value := Some(Rendered(enriched.properties, m.fieldName)));
    }
    result := Success(enriched);
  }

  /** EnrichEvent up to the charges, stage by stage. */
  method EnrichBeforeCharges(src: Sources, ev: Event) returns (result: Result<EnrichedEvent>)
    ensures result == BeforeCharges(src, ev)
  {
    var built := ToEnrichedEvent(ev);
    if built.Failure? {
      return Wrapped(built, "build_enriched_event", "Error while converting event to enriched event");
    }
    var metric := src.metric(ev.organizationId, ev.code);
    if metric.Failure? {
      return Wrapped(metric, "fetch_billable_metric", "Error fetching billable metric");
    }
    var measured := EnrichWithBillableMetric(src, built.value, metric.value);
    if measured.Failure? {
      return Wrapped(measured, measured.code, measured.message);
    }
    var enriched := measured.value;
    var sub := src.subscription(ev.organizationId, ev.externalSubscriptionId, enriched.time);
    if sub.Failure? {
      if sub.capture {
        return Wrapped(sub, "fetch_subscription", "Error fetching subscription");
      }
    } else {
      enriched := enriched.(subscription := Some(sub.value));
    }
    result := Success(enriched);
  }

  /** EnrichEvent */
  method EnrichEvent(src: Sources, ev: Event) returns (result: Result<seq<EnrichedEvent>>)
    ensures exists order :: Enriched(src, ev, result, order)
  {
    var before := EnrichBeforeCharges(src, ev);
    if before.Failure? {
      result := Failure(before.error, before.code, before.message, before.retryable, before.capture);
      assert Enriched(src, ev, result, []);
      return;
    }
    UnchargedBeforeCharges(src, ev);
    result := EnrichWithChargeInfo(src, before.value);
    ghost var order :| ChargesDone(src, before.value, result, order);
    assert Enriched(src, ev, result, order);
  }

  ghost predicate Enriched(src: Sources, ev: Event, result: Result<seq<EnrichedEvent>>, order: seq<string>) {
    var before := BeforeCharges(src, ev);
    match before
    case Failure(error, code, message, retryable, capture) => result == Failure(error, code, message, retryable, capture)
    case Success(e) => ChargesDone(src, e, result, order)
  }

  /** Whether the metric has an expression to evaluate for the event. */
  predicate Evaluates(ev: Event, m: Metric) {
    ev.source != "http_ruby" && m.expression != ""
  }

  /** The event as the evaluator sees it: with its metric and times, and nothing else yet. */
  function Unmeasured(ev: Event, e: EnrichedEvent): EnrichedEvent {
    EnrichedEvent(ev, e.metric, None, ev.properties, e.seconds, e.time, None, None, None, None, None, None, map[], None)
  }

  /** The event's properties, with only the metric's field replaced, by what its expression
      evaluates to, if it has one. */
  predicate HasProperties(src: Sources, ev: Event, m: Metric, e: EnrichedEvent) {
    if Evaluates(ev, m) then
      var evaluated := src.evaluate(m.expression, Unmeasured(ev, e));
      evaluated.Some? && e.properties == ev.properties[m.fieldName := Value(evaluated.value)]
    else
      e.properties == ev.properties
  }

  /** What is counted: 1 for a count, otherwise the metric's field as a text. */
  predicate HasValue(m: Metric, e: EnrichedEvent) {
    e.value == Some(
      if m.aggregation == "count" then "1"
      else if m.fieldName in e.properties && e.properties[m.fieldName].Value? then e.properties[m.fieldName].text
      else "<nil>")
  }

  /** The subscription that the lookup gives for the event's time, if any. */
  predicate HasSubscription(src: Sources, ev: Event, e: EnrichedEvent) {
    match src.subscription(ev.organizationId, ev.externalSubscriptionId, e.time)
    case Success(s) => e.subscription == Some(s)
    case Failure(_, _, _, _, capture) => !capture && e.subscription == None
  }

  /** Event e is ev enriched up to the charges, field by field. */
  predicate IsEnrichedFrom(src: Sources, ev: Event, e: EnrichedEvent) {
    var found := src.metric(ev.organizationId, ev.code);
    && found.Success? && e.initial == ev && e.metric == Some(found.value)
    && ToTime(ev.timestamp) == Some(e.time) && ToSeconds(ev.timestamp) == Some(e.seconds)
    && HasProperties(src, ev, found.value, e) && HasValue(found.value, e) && HasSubscription(src, ev, e)
  }

  predicate IsUncharged(e: EnrichedEvent) {
    && e.flatFilter == None && e.chargeId == None && e.chargeUpdatedAt == None && e.chargeFilterId == None
    && e.chargeFilterUpdatedAt == None && e.groupedBy == map[] && e.targetWalletCode == None
  }

  lemma EnrichedFields(src: Sources, ev: Event)
    requires BeforeCharges(src, ev).Success?
    ensures IsEnrichedFrom(src, ev, BeforeCharges(src, ev).value) && IsUncharged(BeforeCharges(src, ev).value)
  {
    var e := BeforeCharges(src, ev).value;
    var m := src.metric(ev.organizationId, ev.code).value;
    var built := ToEnrichedEvent(ev).value;
    assert Unmeasured(ev, e) == built.(metric := Some(m));
  }

  /** Every event a successful enrichment gives is the event given, enriched with the metric, the
      value, the time and the subscription it should have; it is uncharged and alone, or carries
      the fields of its filter. */
  lemma EveryCopyIsEnriched(src: Sources, ev: Event, result: Result<seq<EnrichedEvent>>, order: seq<string>, x: EnrichedEvent)
    requires Enriched(src, ev, result, order) && result.Success? && x in result.value
    ensures IsEnrichedFrom(src, ev, x)
    ensures (IsUncharged(x) && result.value == [x]) || CarriesItsFilter(x)
  {
    EnrichedFields(src, ev);
    var e := BeforeCharges(src, ev).value;
    var i :| 0 <= i < |result.value| && result.value[i] == x;
    CopyIsSameEvent(src, e, result, order, i);
    if x != e {
      SameEventIsEnriched(src, ev, e, x);
    }
  }

  lemma CopyIsSameEvent(src: Sources, e: EnrichedEvent, result: Result<seq<EnrichedEvent>>, order: seq<string>, i: nat)
    requires ChargesDone(src, e, result, order) && result.Success? && i < |result.value|
    ensures var x := result.value[i]; (x == e && result.value == [x]) || (SameEvent(x, e) && CarriesItsFilter(x))
  {
    if e.subscription.Some? {
      var found := src.filters(e.initial.organizationId, e.initial.code, e.subscription.value.planId);
      if found.value != [] {
        BucketCarriesCharge(e, found.value, order[i]);
      }
    }
  }

  lemma SameEventIsEnriched(src: Sources, ev: Event, e: EnrichedEvent, x: EnrichedEvent)
    requires IsEnrichedFrom(src, ev, e) && IsUncharged(e) && SameEvent(x, e)
    ensures IsEnrichedFrom(src, ev, x)
  {
  }

  /** The flag conventions of the lookups: a failure is retryable unless it is a not-found
      one, and those are not captured either. */
  ghost predicate FlagsConventional<T>(r: Result<T>) {
    r.Failure? ==> (r.retryable <==> r.capture)
  }

  ghost predicate TimestampFails(ev: Event) {
    ToTime(ev.timestamp).None?
  }

  /** At the first lookup, the one EnrichEvent makes itself. */
  ghost predicate MetricNotFound(src: Sources, ev: Event) {
    var m := src.metric(ev.organizationId, ev.code);
    !TimestampFails(ev) && m.Failure? && !m.capture
  }

  ghost predicate ExpressionFails(src: Sources, ev: Event) {
    var built := ToEnrichedEvent(ev);
    var m := src.metric(ev.organizationId, ev.code);
    !TimestampFails(ev) && m.Success? && built.Success? && NeedsEvaluation(built.value, m.value) &&
    src.evaluate(m.value.expression, built.value.(metric := Some(m.value))).None?
  }

  /** A failure is final, not to be retried, exactly when it comes from the timestamp, from a
      metric not found at the first lookup, or from the expression; whatever layers wrapped
      it. */
  lemma RetryClassification(src: Sources, ev: Event, result: Result<seq<EnrichedEvent>>, order: seq<string>)
    requires Enriched(src, ev, result, order)
    requires FlagsConventional(src.metric(ev.organizationId, ev.code))
    requires forall t :: FlagsConventional(src.subscription(ev.organizationId, ev.externalSubscriptionId, t))
    ensures result.Failure? && !result.retryable <==>
      TimestampFails(ev) || MetricNotFound(src, ev) || ExpressionFails(src, ev)
  {
    ConversionsFailTogether(ev.timestamp);
    var built := ToEnrichedEvent(ev);
    if built.Success? {
      var m := src.metric(ev.organizationId, ev.code);
      if m.Success? {
        var measured := WithMetric(src, built.value, m.value);
        if measured.Success? {
          var sub := src.subscription(ev.organizationId, ev.externalSubscriptionId, measured.value.time);
          assert FlagsConventional(sub);
        }
      }
    }
  }

  /** Events enriched from one event: all charged, or the event alone and uncharged. */
  ghost predicate AllChargedOrAlone(events: seq<EnrichedEvent>) {
    || (forall i :: 0 <= i < |events| ==> events[i].chargeId.Some? && events[i].flatFilter.Some?)
    || (|events| == 1 && events[0].chargeId.None? && events[0].flatFilter.None?)
  }

  lemma BucketsAreCharged(e: EnrichedEvent, filters: seq<FlatFilter>, events: seq<EnrichedEvent>, order: seq<string>)
    requires filters != [] && AreBuckets(events, e, filters, order)
    ensures events != [] && AllChargedOrAlone(events)
    ensures forall i :: 0 <= i < |events| ==> events[i].initial == e.initial && events[i].subscription == e.subscription
  {
    assert filters[0].chargeId in ChargeIds(filters);
    forall i | 0 <= i < |events|
      ensures events[i].chargeId.Some? && events[i].flatFilter.Some?
      ensures events[i].initial == e.initial && events[i].subscription == e.subscription
    {
      BucketCarriesCharge(e, filters, order[i]);
    }
  }

  /** What comes before the charges leaves the event uncharged. */
  lemma UnchargedBeforeCharges(src: Sources, ev: Event)
    requires BeforeCharges(src, ev).Success?
    ensures var e := BeforeCharges(src, ev).value;
      e.initial == ev && e.chargeId.None? && e.flatFilter.None? && e.groupedBy == map[]
  {
  }

  lemma ChargesDoneNonEmpty(src: Sources, e: EnrichedEvent, result: Result<seq<EnrichedEvent>>, order: seq<string>)
    requires ChargesDone(src, e, result, order) && result.Success? && e.chargeId.None? && e.flatFilter.None?
    ensures result.value != [] && AllChargedOrAlone(result.value)
    ensures forall i :: 0 <= i < |result.value| ==> result.value[i].initial == e.initial && result.value[i].subscription == e.subscription
  {
    if e.subscription.Some? {
      var found := src.filters(e.initial.organizationId, e.initial.code, e.subscription.value.planId);
      if found.value != [] {
        BucketsAreCharged(e, found.value, result.value, order);
      }
    }
  }

  /** A successful enrichment is never empty, all its events are about the event given and
      its subscription, and either every one of them is charged or there is just the event
      itself, uncharged. */
  lemma SuccessIsNonEmpty(src: Sources, ev: Event, result: Result<seq<EnrichedEvent>>, order: seq<string>)
    requires Enriched(src, ev, result, order) && result.Success?
    ensures result.value != [] && AllChargedOrAlone(result.value)
    ensures forall i :: 0 <= i < |result.value| ==>
      result.value[i].initial == ev && result.value[i].subscription == result.value[0].subscription
  {
    UnchargedBeforeCharges(src, ev);
    ChargesDoneNonEmpty(src, BeforeCharges(src, ev).value, result, order);
  }

  /** What a failed enrichment says: where it comes from, with the error and the flags that the
      lookup gave. */
  lemma FailureFields(src: Sources, ev: Event, result: Result<seq<EnrichedEvent>>, order: seq<string>)
    requires Enriched(src, ev, result, order) && result.Failure?
    ensures TimestampFails(ev) ==>
      result.code == "build_enriched_event" && result.message == "Error while converting event to enriched event" && !result.retryable && result.capture
    ensures !TimestampFails(ev) ==>
      match src.metric(ev.organizationId, ev.code)
      case Failure(error, _, _, retryable, capture) =>
        result == Failure(error, "fetch_billable_metric", "Error fetching billable metric", retryable, capture)
      case Success(m) =>
        if ExpressionFails(src, ev) then
          result.code == "evaluate_expression" && result.message == "Error evaluating custom expression" && !result.retryable && result.capture
        else
          match src.subscription(ev.organizationId, ev.externalSubscriptionId, ToTime(ev.timestamp).value)
          case Failure(error, _, _, retryable, capture) =>
            capture && result == Failure(error, "fetch_subscription", "Error fetching subscription", retryable, true)
          case Success(s) =>
            var found := src.filters(ev.organizationId, ev.code, s.planId);
            found.Failure? && result == Failure(found.error, "", "", true, true)
  {
    ConversionsFailTogether(ev.timestamp);
    if BeforeCharges(src, ev).Success? {
      EnrichedFields(src, ev);
    }
  }
}
