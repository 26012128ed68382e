/** From the cached tables to what is pushed: enrichment with the cache as its source.

    The change consumers rewrite the cache while events are enriched, so the three lookups an
    event makes, for its metric, its subscription and its filters, may each see another state
    of it. */
module Pipeline {
  import opened Options
  import opened Results
  import opened Keys
  import opened Entities
  import opened Filters
  import opened Timestamps
  import Subscriptions
  import FlatFilterJoin
  import opened Enrichment
  import opened Processor

  function MetricKey(ev: Event): string {
    "bm:" + ev.organizationId + ":" + ev.code
  }

  /** A lookup's way of saying that there is nothing: not to be retried, not to be reported. */
  ghost predicate NotFound<T>(r: Result<T>) {
    r.Failure? && !r.retryable && !r.capture
  }

  /** The answers of GetBillableMetric. */
  ghost predicate MetricFrom(store: Store, ev: Event, found: Result<Metric>) {
    if MetricKey(ev) in store then found.Success? && found.value == store[MetricKey(ev)] else NotFound(found)
  }

  /** Those of SearchSubscriptions, as its method answers. */
  ghost predicate SubscriptionFrom(store: Store, ev: Event, ts: int, found: Result<Subscriptions.Sub>) {
    var rows := Subscriptions.HitRows(store, ev.organizationId, ev.externalSubscriptionId);
    match found
    case Success(sub) => Subscriptions.IsAnswer(rows, Subscriptions.At(ts), Some(sub))
    case Failure(_, _, _, _, _) => NotFound(found) && Subscriptions.IsAnswer(rows, Subscriptions.At(ts), None)
  }

  /** Those of BuildFlatFilters, as its method answers. */
  ghost predicate FiltersFrom(v: FlatFilterJoin.View, ev: Event, planId: string, found: Result<seq<FlatFilter>>) {
    if MetricKey(ev) in v.metric then
      found == Success(FlatFilterJoin.Join(v, QueryOf(v, ev, planId)))
    else
      found.Failure?
  }

  function QueryOf(v: FlatFilterJoin.View, ev: Event, planId: string): FlatFilterJoin.Query
    requires MetricKey(ev) in v.metric
  {
    FlatFilterJoin.Query(ev.organizationId, ev.code, planId, v.metric[MetricKey(ev)].id)
  }

  /** The lookups made for an event are answered from the cache: its metric from state s1, its
      subscription from state s2, its filters from what the join sees. */
  ghost predicate CacheAnswers(src: Sources, s1: Store, s2: Store, v: FlatFilterJoin.View, ev: Event) {
    && Keyed(s1) && Keyed(s2) && FlatFilterJoin.KeyedView(v) && ColonFree(ev.organizationId)
    && MetricFrom(s1, ev, src.metric(ev.organizationId, ev.code))
    && (forall ts :: SubscriptionFrom(s2, ev, ts, src.subscription(ev.organizationId, ev.externalSubscriptionId, ts)))
    && (forall planId :: ColonFree(planId) ==> FiltersFrom(v, ev, planId, src.filters(ev.organizationId, ev.code, planId)))
  }

  /** A first row under the query's order among the eligible ones. */
  ghost function FirstOf(rows: seq<Subscriptions.Sub>, ts: int): (answer: Option<Subscriptions.Sub>)
    ensures Subscriptions.IsAnswer(rows, Subscriptions.At(ts), answer)
  {
    if rows == [] then
      None
    else
      var front, last := rows[..|rows| - 1], rows[|rows| - 1];
      assert rows == front + [last];
      var best := FirstOf(front, ts);
      if Subscriptions.Eligible(last, ts) && (best.None? || Subscriptions.Outranks(last, best.value)) then Some(last) else best
  }

  function Nothing<T>(): Result<T> {
    Failure("not found", "", "", false, false)
  }

  ghost function MetricLookup(store: Store, ev: Event): (found: Result<Metric>)
    requires Keyed(store) && ColonFree(ev.organizationId)
    ensures MetricFrom(store, ev, found)
  {
    if MetricKey(ev) in store then
      FlatFilterJoin.MetricKey(store, ev.organizationId, ev.code);
      Success(store[MetricKey(ev)])
    else
      Nothing()
  }

  ghost function SubscriptionLookup(store: Store, ev: Event, ts: int): (found: Result<Subscriptions.Sub>)
    ensures SubscriptionFrom(store, ev, ts, found)
  {
    var answer := FirstOf(Subscriptions.HitRows(store, ev.organizationId, ev.externalSubscriptionId), ts);
    if answer.None? then Nothing() else Success(answer.value)
  }

  ghost function FiltersLookup(v: FlatFilterJoin.View, ev: Event, planId: string): (found: Result<seq<FlatFilter>>)
    ensures FiltersFrom(v, ev, planId, found)
  {
    if MetricKey(ev) in v.metric then Success(FlatFilterJoin.Join(v, QueryOf(v, ev, planId))) else Nothing()
  }

  /** Whatever is cached, the lookups can be answered from it. */
  lemma CacheCanAnswer(s1: Store, s2: Store, v: FlatFilterJoin.View, ev: Event, evaluate: (string, EnrichedEvent) -> Option<string>) returns (src: Sources)
    requires Keyed(s1) && Keyed(s2) && FlatFilterJoin.KeyedView(v) && ColonFree(ev.organizationId)
    ensures CacheAnswers(src, s1, s2, v, ev) && src.evaluate == evaluate
  {
    var metric := MetricLookup(s1, ev);
    var subscription := (org: string, externalId: string, ts: int) => SubscriptionLookup(s2, ev, ts);
    var filters := (org: string, code: string, planId: string) => FiltersLookup(v, ev, planId);
    src := Sources((org: string, code: string) => metric, subscription, filters, evaluate);
    forall ts
      ensures SubscriptionFrom(s2, ev, ts, src.subscription(ev.organizationId, ev.externalSubscriptionId, ts))
    {
      assert src.subscription(ev.organizationId, ev.externalSubscriptionId, ts) == SubscriptionLookup(s2, ev, ts);
    }
    forall planId
      ensures FiltersFrom(v, ev, planId, src.filters(ev.organizationId, ev.code, planId))
    {
      assert src.filters(ev.organizationId, ev.code, planId) == FiltersLookup(v, ev, planId);
    }
  }

  /** A subscription found in the cache has a plan id without colons. */
  lemma FoundPlan(store: Store, ev: Event, ts: int, sub: Subscriptions.Sub)
    requires Keyed(store) && SubscriptionFrom(store, ev, ts, Success(sub))
    ensures ColonFree(sub.planId) && Subscriptions.Eligible(sub, ts) && sub.org == ev.organizationId
  {
    var s := Subscriptions.SubscriptionsHit(store, ev.organizationId, ev.externalSubscriptionId);
    var k :| k in s && store[k] == sub;
  }

  /** What has been found once the charges are looked up. */
  lemma ChargesLookedUp(src: Sources, s1: Store, s2: Store, v: FlatFilterJoin.View, ev: Event)
    requires CacheAnswers(src, s1, s2, v, ev) && BeforeCharges(src, ev).Success?
    ensures MetricKey(ev) in s1
    ensures var e := BeforeCharges(src, ev).value; e.subscription.Some? ==>
      FiltersFrom(v, ev, e.subscription.value.planId, src.filters(ev.organizationId, ev.code, e.subscription.value.planId))
  {
    var metric := src.metric(ev.organizationId, ev.code);
    var measured := WithMetric(src, ToEnrichedEvent(ev).value, metric.value).value;
    var found := src.subscription(ev.organizationId, ev.externalSubscriptionId, measured.time);
    assert SubscriptionFrom(s2, ev, measured.time, found);
    if found.Success? {
      FoundPlan(s2, ev, measured.time, found.value);
    }
  }

  /** The event has a subscription, but its metric is gone when the filters are joined. */
  ghost predicate MetricGone(src: Sources, v: FlatFilterJoin.View, ev: Event) {
    var before := BeforeCharges(src, ev);
    before.Success? && before.value.subscription.Some? && MetricKey(ev) !in v.metric
  }

  lemma FailsBeforeCharges(src: Sources, s1: Store, s2: Store, v: FlatFilterJoin.View, ev: Event)
    requires CacheAnswers(src, s1, s2, v, ev) && BeforeCharges(src, ev).Failure?
    ensures !BeforeCharges(src, ev).retryable
  {
    var built := ToEnrichedEvent(ev);
    var metric := src.metric(ev.organizationId, ev.code);
    if built.Success? && metric.Success? {
      var measured := WithMetric(src, built.value, metric.value);
      if measured.Success? {
        assert SubscriptionFrom(s2, ev, measured.value.time,
                                src.subscription(ev.organizationId, ev.externalSubscriptionId, measured.value.time));
      }
    }
  }

  lemma ConventionsHold(src: Sources, s1: Store, s2: Store, v: FlatFilterJoin.View, ev: Event)
    requires CacheAnswers(src, s1, s2, v, ev)
    ensures FlagsConventional(src.metric(ev.organizationId, ev.code))
    ensures forall ts :: FlagsConventional(src.subscription(ev.organizationId, ev.externalSubscriptionId, ts))
    ensures src.metric(ev.organizationId, ev.code).Failure? <==> MetricKey(ev) !in s1
    ensures src.metric(ev.organizationId, ev.code).Failure? ==> !src.metric(ev.organizationId, ev.code).capture
  {
    forall ts
      ensures FlagsConventional(src.subscription(ev.organizationId, ev.externalSubscriptionId, ts))
    {
      assert SubscriptionFrom(s2, ev, ts, src.subscription(ev.organizationId, ev.externalSubscriptionId, ts));
    }
  }

  /** With the cache as its source an enrichment fails for good exactly when the timestamp does
      not convert, the metric is not cached at the first look or its expression does not
      evaluate; and it fails to be retried exactly when the metric, found at first, is gone at
      the second look, when the filters of the event's subscription are joined. */
  lemma CachedFailures(src: Sources, s1: Store, s2: Store, v: FlatFilterJoin.View, ev: Event, result: Result<seq<EnrichedEvent>>, order: seq<string>)
    requires CacheAnswers(src, s1, s2, v, ev) && Enriched(src, ev, result, order)
    ensures result.Failure? && !result.retryable <==> TimestampFails(ev) || MetricKey(ev) !in s1 || ExpressionFails(src, ev)
    ensures result.Failure? && result.retryable <==> MetricGone(src, v, ev)
  {
    ConventionsHold(src, s1, s2, v, ev);
    RetryClassification(src, ev, result, order);
    if BeforeCharges(src, ev).Success? {
      ChargesLookedUp(src, s1, s2, v, ev);
      UnchargedBeforeCharges(src, ev);
      FailsAtCharges(src, v, ev, BeforeCharges(src, ev).value, result, order);
    } else {
      FailsBeforeCharges(src, s1, s2, v, ev);
    }
  }

  lemma FailsAtCharges(src: Sources, v: FlatFilterJoin.View, ev: Event, e: EnrichedEvent, result: Result<seq<EnrichedEvent>>, order: seq<string>)
    requires e.initial == ev && ChargesDone(src, e, result, order)
    requires e.subscription.Some? ==>
      FiltersFrom(v, ev, e.subscription.value.planId, src.filters(ev.organizationId, ev.code, e.subscription.value.planId))
    ensures result.Failure? <==> e.subscription.Some? && MetricKey(ev) !in v.metric
    ensures result.Failure? ==> result.retryable
  {
  }

  /** If the cache stands still meanwhile, every failure is final: the second look finds what
      the first has found. */
  lemma CachedFailuresAreFinal(src: Sources, store: Store, ev: Event, result: Result<seq<EnrichedEvent>>, order: seq<string>)
    requires CacheAnswers(src, store, store, FlatFilterJoin.Still(store), ev) && Enriched(src, ev, result, order)
    ensures result.Failure? <==> TimestampFails(ev) || MetricKey(ev) !in store || ExpressionFails(src, ev)
    ensures result.Failure? ==> !result.retryable
  {
    CachedFailures(src, store, store, FlatFilterJoin.Still(store), ev, result, order);
    if BeforeCharges(src, ev).Success? {
      ChargesLookedUp(src, store, store, FlatFilterJoin.Still(store), ev);
    }
  }

  /** The join lists exactly the charges of the metric on the plan. */
  lemma JoinedCharges(v: FlatFilterJoin.View, q: FlatFilterJoin.Query)
    ensures ChargeIds(FlatFilterJoin.Join(v, q)) == set k | k in FlatFilterJoin.ChargesAt(v, q) :: v.charges[k].id
  {
    var rows, keys := FlatFilterJoin.Join(v, q), FlatFilterJoin.ChargesAt(v, q);
    forall row | row in rows
      ensures exists k :: k in keys && v.charges[k].id == row.chargeId
    {
      FlatFilterJoin.JoinIsTheRelation(v, q, row);
      var c, f :| FlatFilterJoin.Paired(v, q, c, f) && row == FlatFilterJoin.RowFor(v, q, c, f);
      assert c in keys && v.charges[c].id == row.chargeId;
    }
    forall k | k in keys
      ensures v.charges[k].id in ChargeIds(rows)
    {
      EveryChargeHasARow(v, q, k);
    }
  }

  lemma EveryChargeHasARow(v: FlatFilterJoin.View, q: FlatFilterJoin.Query, c: string)
    requires c in FlatFilterJoin.ChargesAt(v, q)
    ensures v.charges[c].id in ChargeIds(FlatFilterJoin.Join(v, q))
  {
    var filters := FlatFilterJoin.FiltersAt(v, q.org, v.charges[c].id);
    var f: Option<string> := None;
    if k :| k in filters {
      f := Some(k);
    }
    assert FlatFilterJoin.Paired(v, q, c, f);
    var row := FlatFilterJoin.RowFor(v, q, c, f);
    FlatFilterJoin.JoinIsTheRelation(v, q, row);
    assert row.chargeId == v.charges[c].id;
  }

  /** Different charges have different ids. */
  lemma {:induction false} AsManyIdsAsCharges(store: Store, org: string, planId: string, metricId: string, keys: set<string>)
    requires Keyed(store) && keys <= ChargesOf(store, org, planId, metricId)
    ensures |set k | k in keys :: store[k].id| == |keys|
  {
    var ids := set k | k in keys :: store[k].id;
    if keys == {} {
      assert ids == {};
    } else {
      var k :| k in keys;
      var rest := set l | l in keys - {k} :: store[l].id;
      AsManyIdsAsCharges(store, org, planId, metricId, keys - {k});
      assert store[k].id !in rest by {
        forall l | l in keys - {k}
          ensures store[l].id != store[k].id
        {
          if store[l].id == store[k].id {
            FlatFilterJoin.SameRow(store, k, l);
          }
        }
      }
      assert ids == rest + {store[k].id};
    }
  }

  /** End to end: for every event enriched from the cache, as many expanded events are pushed
      as there are charges of the event's metric on its subscription's plan in the state the
      filters were joined from, and none without a subscription. */
  lemma OneExpandedPushPerCachedCharge(src: Sources, s1: Store, s2: Store, v: FlatFilterJoin.View, outside: Outside, ev: Event,
                                       found: Result<seq<EnrichedEvent>>, order: seq<string>)
    requires CacheAnswers(src, s1, s2, v, ev) && Enriched(src, ev, found, order) && found.Success?
    ensures BeforeCharges(src, ev).Success? && (BeforeCharges(src, ev).value.subscription.Some? ==> MetricKey(ev) in v.metric)
    ensures Count(outside, EffectsOfEnrichment(outside, ev, found), Pushes(ExpandedTopic)) ==
      match BeforeCharges(src, ev).value.subscription
      case None => 0
      case Some(sub) => |ChargesOf(v.charges, ev.organizationId, sub.planId, v.metric[MetricKey(ev)].id)|
  {
    EffectsOfSuccess(src, outside, ev, found, order, EffectsOfEnrichment(outside, ev, found));
    CachedFailures(src, s1, s2, v, ev, found, order);
    ChargesLookedUp(src, s1, s2, v, ev);
    var subscription := BeforeCharges(src, ev).value.subscription;
    if subscription.Some? {
      ChargeCountIsCached(src, v, ev, subscription.value.planId);
    }
  }

  lemma ChargeCountIsCached(src: Sources, v: FlatFilterJoin.View, ev: Event, planId: string)
    requires FlatFilterJoin.KeyedView(v) && MetricKey(ev) in v.metric && BeforeCharges(src, ev).Success?
    requires BeforeCharges(src, ev).value.subscription.Some? && BeforeCharges(src, ev).value.subscription.value.planId == planId
    requires FiltersFrom(v, ev, planId, src.filters(ev.organizationId, ev.code, planId))
    ensures ChargeCount(src, ev) == |ChargesOf(v.charges, ev.organizationId, planId, v.metric[MetricKey(ev)].id)|
  {
    var q := QueryOf(v, ev, planId);
    JoinedCharges(v, q);
    AsManyIdsAsCharges(v.charges, q.org, planId, q.metricId, ChargesOf(v.charges, q.org, planId, q.metricId));
  }

  const RACED := Event("o", "e", "t", "c", map[], "", Whole(0), None, 0)

  /** A cache with a metric and a subscription for that event, and the cache without the
      metric. */
  lemma RacedStores() returns (s1: Store, s3: Store, sub: Subscriptions.Sub)
    ensures Keyed(s1) && Keyed(s3) && MetricKey(RACED) in s1 && MetricKey(RACED) !in s3
    ensures s1[MetricKey(RACED)].Metric? && s1[MetricKey(RACED)].expression == ""
    ensures KeyOf(sub) in s1 && s1[KeyOf(sub)] == sub && sub.org == "o" && sub.externalId == "e" && Subscriptions.Eligible(sub, 0)
  {
    var metric := Entities.Metric("m", "o", "c", "count", "", "");
    sub := Entities.Subscription("s", "o", "e", "p", Some(0), None);
    FlatFilterJoin.MetricKeyText(metric);
    TablesDiffer(metric, sub);
    s3 := map[KeyOf(sub) := sub];
    s1 := s3[KeyOf(metric) := metric];
  }

  /** The metric can go between the two looks: an event whose enrichment fails to be retried
      though timestamp, metric and expression are in order. */
  lemma MetricCanGoInBetween(evaluate: (string, EnrichedEvent) -> Option<string>)
    ensures exists src, s1, v, ev, result: Result<seq<EnrichedEvent>>, order ::
      CacheAnswers(src, s1, s1, v, ev) && Enriched(src, ev, result, order) && MetricKey(ev) in s1 && result.Failure? && result.retryable
  {
    var s1, s3, sub := RacedStores();
    var src := CacheCanAnswer(s1, s1, FlatFilterJoin.Still(s3), RACED, evaluate);
    SubscriptionIsFound(src, s1, FlatFilterJoin.Still(s3), RACED, sub);
    var result := FailedJoin(src, RACED);
  }

  lemma FailedJoin(src: Sources, ev: Event) returns (result: Result<seq<EnrichedEvent>>)
    requires BeforeCharges(src, ev).Success? && BeforeCharges(src, ev).value.subscription.Some?
    requires src.filters(ev.organizationId, ev.code, BeforeCharges(src, ev).value.subscription.value.planId).Failure?
    ensures Enriched(src, ev, result, []) && result.Failure? && result.retryable
  {
    var planId := BeforeCharges(src, ev).value.subscription.value.planId;
    result := Failed(src.filters(ev.organizationId, ev.code, planId).error);
    UnchargedBeforeCharges(src, ev);
  }

  lemma TablesDiffer(a: Entity, b: Entity)
    requires Parts(a)[0] != Parts(b)[0]
    ensures KeyOf(a) != KeyOf(b)
  {
    if KeyOf(a) == KeyOf(b) {
      TablesAreDisjoint(a, b);
    }
  }

  lemma EligibleIsFound(store: Store, ev: Event, ts: int, sub: Subscriptions.Sub, found: Result<Subscriptions.Sub>)
    requires SubscriptionFrom(store, ev, ts, found) && KeyOf(sub) in store && store[KeyOf(sub)] == sub
    requires sub.org == ev.organizationId && sub.externalId == ev.externalSubscriptionId && Subscriptions.Eligible(sub, ts)
    ensures found.Success?
  {
    assert KeyOf(sub) in Subscriptions.SubscriptionsHit(store, ev.organizationId, ev.externalSubscriptionId);
    assert sub in Subscriptions.HitRows(store, ev.organizationId, ev.externalSubscriptionId);
  }

  lemma SubscriptionIsFound(src: Sources, s1: Store, v: FlatFilterJoin.View, ev: Event, sub: Subscriptions.Sub)
    requires CacheAnswers(src, s1, s1, v, ev) && ev.timestamp == Whole(0) && MetricKey(ev) in s1 && s1[MetricKey(ev)].Metric?
    requires s1[MetricKey(ev)].expression == "" && KeyOf(sub) in s1 && s1[KeyOf(sub)] == sub
    requires sub.org == ev.organizationId && sub.externalId == ev.externalSubscriptionId && Subscriptions.Eligible(sub, 0)
    ensures BeforeCharges(src, ev).Success? && BeforeCharges(src, ev).value.subscription.Some?
    ensures MetricKey(ev) !in v.metric ==> src.filters(ev.organizationId, ev.code, BeforeCharges(src, ev).value.subscription.value.planId).Failure?
  {
    var found := src.subscription(ev.organizationId, ev.externalSubscriptionId, 0);
    assert SubscriptionFrom(s1, ev, 0, found);
    EligibleIsFound(s1, ev, 0, sub, found);
    ChargesLookedUp(src, s1, s1, v, ev);
  }
}
