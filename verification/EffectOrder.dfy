/** Whether what is done for an event depends on the order in which Go visits its charges.

    The enriched push and the in-advance push carry the first copy, and that is the copy for
    whichever charge happens to be visited first. */
module EffectOrder {
  import opened Filters
  import opened Enrichment
  import opened Processor

  /** Any two orders of the charges give the same effects. */
  ghost predicate EffectsOrderFree(outside: Outside, ev: Event, e: EnrichedEvent, filters: seq<FlatFilter>) {
    forall events, order, events', order' {:trigger AreBuckets(events, e, filters, order), AreBuckets(events', e, filters, order')} ::
      AreBuckets(events, e, filters, order) && AreBuckets(events', e, filters, order') && events != [] && events' != [] ==>
      multiset(EffectsOf(outside, ev, events)) == multiset(EffectsOf(outside, ev, events'))
  }

  lemma {:induction false} ExpansionsConcat(outside: Outside, a: seq<EnrichedEvent>, b: seq<EnrichedEvent>)
    ensures Expansions(outside, a + b) == Expansions(outside, a) + Expansions(outside, b)
  {
    if b == [] {
      assert a + b == a;
    } else {
      var front, last := b[..|b| - 1], Expansion(outside, b[|b| - 1]);
      ExpansionsConcat(outside, a, front);
      assert (a + b)[..|a + b| - 1] == a + front;
      assert Expansions(outside, a + b) == Expansions(outside, a + front) + last;
      Associate(Expansions(outside, a), Expansions(outside, front), last);
    }
  }

  lemma Associate(a: seq<Effect>, b: seq<Effect>, c: seq<Effect>)
    ensures a + b + c == a + (b + c)
  {
  }

  /** Taking a copy out of the middle. */
  lemma ExpansionsWithout(outside: Outside, events: seq<EnrichedEvent>, i: nat)
    requires i < |events|
    ensures multiset(Expansions(outside, events)) ==
      multiset(Expansions(outside, events[..i] + events[i + 1..])) + multiset(Expansion(outside, events[i]))
  {
    var a, x, b := events[..i], [events[i]], events[i + 1..];
    assert events == a + x + b;
    ExpansionsConcat(outside, a + x, b);
    ExpansionsConcat(outside, a, x);
    ExpansionsConcat(outside, a, b);
    assert x[..0] == [];
  }

  lemma TakenFromBoth(front: seq<EnrichedEvent>, last: EnrichedEvent, b: seq<EnrichedEvent>) returns (i: nat)
    requires multiset(front + [last]) == multiset(b)
    ensures i < |b| && b[i] == last && multiset(front) == multiset(b[..i] + b[i + 1..])
  {
    assert last in multiset(front + [last]);
    i :| 0 <= i < |b| && b[i] == last;
    assert b == b[..i] + [b[i]] + b[i + 1..];
    assert multiset(front) == multiset(front + [last]) - multiset{last};
  }

  /** The expanded pushes do not depend on the order of the copies. */
  lemma {:induction false} SameExpansions(outside: Outside, a: seq<EnrichedEvent>, b: seq<EnrichedEvent>)
    requires multiset(a) == multiset(b)
    ensures multiset(Expansions(outside, a)) == multiset(Expansions(outside, b))
  {
    if a == [] {
      assert |multiset(b)| == 0;
    } else {
      var front, last := a[..|a| - 1], a[|a| - 1];
      assert a == front + [last];
      var i := TakenFromBoth(front, last, b);
      SameExpansions(outside, front, b[..i] + b[i + 1..]);
      ExpansionsWithout(outside, b, i);
    }
  }

  lemma {:induction false} ExpansionsPushExpanded(outside: Outside, events: seq<EnrichedEvent>, x: EnrichedEvent)
    ensures Attempt(EnrichedTopic, x) !in Expansions(outside, events)
  {
    if events != [] {
      ExpansionsPushExpanded(outside, events[..|events| - 1], x);
    }
  }

  lemma {:induction false} ExpiriesPushNothing(events: seq<EnrichedEvent>, x: EnrichedEvent)
    ensures Attempt(EnrichedTopic, x) !in Expiries(events)
  {
    if events != [] {
      ExpiriesPushNothing(events[..|events| - 1], x);
    }
  }

  /** The one enriched push carries the first copy. */
  lemma FirstIsEnriched(outside: Outside, ev: Event, events: seq<EnrichedEvent>, x: EnrichedEvent)
    requires events != [] && !IsReprocess(ev)
    ensures Attempt(EnrichedTopic, x) in EffectsOf(outside, ev, events) <==> x == events[0]
  {
    var a := Attempt(EnrichedTopic, x);
    ExpansionsPushExpanded(outside, events, x);
    ExpiriesPushNothing(events, x);
    assert a !in RefreshEffects(outside, events);
    assert Push(outside, EnrichedTopic, events[0])[0] == Attempt(EnrichedTopic, events[0]);
  }

  /** The charges in some order. */
  lemma {:induction false} SomeOrder(ids: set<string>) returns (order: seq<string>)
    ensures forall i, j :: 0 <= i < j < |order| ==> order[i] != order[j]
    ensures forall c :: c in order <==> c in ids
    decreases ids
  {
    if ids == {} {
      order := [];
    } else {
      var c :| c in ids;
      var rest := SomeOrder(ids - {c});
      order := [c] + rest;
    }
  }

  /** Any charge can come first. */
  lemma BucketsStartingWith(e: EnrichedEvent, filters: seq<FlatFilter>, c: string) returns (events: seq<EnrichedEvent>, order: seq<string>)
    requires c in ChargeIds(filters)
    ensures AreBuckets(events, e, filters, order) && events != [] && order[0] == c && events[0] == BucketOf(e, filters, c)
  {
    var rest := SomeOrder(ChargeIds(filters) - {c});
    order := [c] + rest;
    assert forall d :: d in order ==> d in ChargeIds(filters);
    events := seq(|order|, i requires 0 <= i < |order| => assert order[i] in order; BucketOf(e, filters, order[i]));
  }

  lemma TwoChargesDiffer(outside: Outside, ev: Event, e: EnrichedEvent, filters: seq<FlatFilter>, c: string, d: string)
    requires !IsReprocess(ev) && c in ChargeIds(filters) && d in ChargeIds(filters) && c != d
    ensures !EffectsOrderFree(outside, ev, e, filters)
  {
    var events, order := BucketsStartingWith(e, filters, c);
    var events', order' := BucketsStartingWith(e, filters, d);
    BucketCarriesCharge(e, filters, c);
    BucketCarriesCharge(e, filters, d);
    var a := Attempt(EnrichedTopic, events[0]);
    FirstIsEnriched(outside, ev, events, events[0]);
    FirstIsEnriched(outside, ev, events', events[0]);
    assert a in multiset(EffectsOf(outside, ev, events)) && a !in multiset(EffectsOf(outside, ev, events'));
  }

  lemma OneOrder(e: EnrichedEvent, filters: seq<FlatFilter>, events: seq<EnrichedEvent>, order: seq<string>,
                 events': seq<EnrichedEvent>, order': seq<string>)
    requires AreBuckets(events, e, filters, order) && AreBuckets(events', e, filters, order') && |ChargeIds(filters)| <= 1
    ensures events == events'
  {
    SameShortOrder(order, order', ChargeIds(filters));
    SameBuckets(e, filters, events, events', order);
  }

  lemma SameShortOrder(order: seq<string>, order': seq<string>, ids: set<string>)
    requires forall i, j :: 0 <= i < j < |order| ==> order[i] != order[j]
    requires forall i, j :: 0 <= i < j < |order'| ==> order'[i] != order'[j]
    requires (forall c :: c in order <==> c in ids) && (forall c :: c in order' <==> c in ids) && |ids| <= 1
    ensures order == order'
  {
    DistinctCount(order, ids);
    DistinctCount(order', ids);
    if order != [] {
      assert order[0] in order';
    }
  }

  lemma SameBuckets(e: EnrichedEvent, filters: seq<FlatFilter>, events: seq<EnrichedEvent>, events': seq<EnrichedEvent>, order: seq<string>)
    requires SomeBuckets(events, e, filters, order) && SomeBuckets(events', e, filters, order)
    ensures events == events'
  {
  }

  lemma ReprocessedAlike(outside: Outside, ev: Event, e: EnrichedEvent, filters: seq<FlatFilter>,
                         events: seq<EnrichedEvent>, order: seq<string>, events': seq<EnrichedEvent>, order': seq<string>)
    requires IsReprocess(ev) && events != [] && events' != []
    requires AreBuckets(events, e, filters, order) && AreBuckets(events', e, filters, order')
    ensures multiset(EffectsOf(outside, ev, events)) == multiset(EffectsOf(outside, ev, events'))
  {
    BucketsIndependentOfOrder(e, filters, events, order, events', order');
    SameExpansions(outside, events, events');
    OnlyExpansions(outside, ev, events);
    OnlyExpansions(outside, ev, events');
  }

  lemma OnlyExpansions(outside: Outside, ev: Event, events: seq<EnrichedEvent>)
    requires IsReprocess(ev) && events != []
    ensures EffectsOf(outside, ev, events) == Expansions(outside, events)
  {
  }

  lemma OrderFreeWhen(outside: Outside, ev: Event, e: EnrichedEvent, filters: seq<FlatFilter>)
    requires IsReprocess(ev) || |ChargeIds(filters)| <= 1
    ensures EffectsOrderFree(outside, ev, e, filters)
  {
    forall events, order, events', order' | AreBuckets(events, e, filters, order) && AreBuckets(events', e, filters, order') && events != [] && events' != []
      ensures multiset(EffectsOf(outside, ev, events)) == multiset(EffectsOf(outside, ev, events'))
    {
      if IsReprocess(ev) {
        ReprocessedAlike(outside, ev, e, filters, events, order, events', order');
      } else {
        OneOrder(e, filters, events, order, events', order');
      }
    }
  }

  /** What is done for a charged event is the same for every order of its charges if and only
      if the event is reprocessed or falls under at most one charge. */
  lemma EffectsOrderFreeExactlyWhen(outside: Outside, ev: Event, e: EnrichedEvent, filters: seq<FlatFilter>)
    ensures EffectsOrderFree(outside, ev, e, filters) <==> IsReprocess(ev) || |ChargeIds(filters)| <= 1
  {
    if IsReprocess(ev) || |ChargeIds(filters)| <= 1 {
      OrderFreeWhen(outside, ev, e, filters);
    } else {
      var ids := ChargeIds(filters);
      var c :| c in ids;
      assert ids != {c};
      var d :| d in ids && d != c;
      TwoChargesDiffer(outside, ev, e, filters, c, d);
    }
  }
}
