/** processEvent and the handling of one record: what is pushed, flagged and expired for an
    event, and whether its record is settled.

    The source starts the pushes in goroutines and waits for them before it returns.  Which
    one comes first is not observable here: the effects of a call are known as a multiset. */
module Processor {
  import opened Options
  import opened Results
  import opened Filters
  import opened Enrichment
  import Workers

  datatype Topic = EnrichedTopic | ExpandedTopic | InAdvanceTopic

  /** One effect on the outside.  An attempt to push an event to a topic may fail.  A dead
      letter holds the event, the error message and the error's details. */
  datatype Effect =
    | Attempt(topic: Topic, event: EnrichedEvent)
    | DeadLetter(failed: Event, error: string, code: string, message: string)
    | Flag(value: string)
    | Expiry(filter: FlatFilter, subscriptionId: string)

  /** The outside: whether the broker takes a message, whether the flag store takes a value
      and with what error it refuses, and what the topics are called. */
  datatype Outside = Outside(
    delivers: (Topic, EnrichedEvent) -> bool,
    accepts: string -> bool,
    flagError: string,
    topicName: Topic -> string)

  function PushError(outside: Outside, topic: Topic): string {
    "failed to push to " + outside.topicName(topic) + " topic"
  }

  /** A push, and the dead letter, without details, if it fails. */
  function Push(outside: Outside, topic: Topic, e: EnrichedEvent): seq<Effect> {
    if outside.delivers(topic, e) then
      [Attempt(topic, e)]
    else
      [Attempt(topic, e), DeadLetter(e.initial, PushError(outside, topic), "", "")]
  }

  function Expansion(outside: Outside, e: EnrichedEvent): seq<Effect> {
    if e.chargeId.Some? then Push(outside, ExpandedTopic, e) else []
  }

  function SubscriptionId(e: EnrichedEvent): string {
    if e.subscription.Some? then e.subscription.value.id else ""
  }

  function FlagValue(e: EnrichedEvent): string {
    e.initial.organizationId + ":" + SubscriptionId(e)
  }

  function ExpiryOf(e: EnrichedEvent): seq<Effect> {
    if e.flatFilter.Some? then [Expiry(e.flatFilter.value, SubscriptionId(e))] else []
  }

  /** One expanded push for every copy that carries a charge. */
  function Expansions(outside: Outside, events: seq<EnrichedEvent>): seq<Effect> {
    if events == [] then [] else Expansions(outside, events[..|events| - 1]) + Expansion(outside, events[|events| - 1])
  }

  /** One charge cache entry to expire for every copy with a filter. */
  function Expiries(events: seq<EnrichedEvent>): seq<Effect> {
    if events == [] then [] else Expiries(events[..|events| - 1]) + ExpiryOf(events[|events| - 1])
  }

  ghost predicate PaysInAdvance(events: seq<EnrichedEvent>) {
    exists i :: 0 <= i < |events| && events[i].flatFilter.Some? && events[i].flatFilter.value.payInAdvance
  }

  /** Whether an event goes on to charging in advance, flagging and expiry. */
  predicate Refreshes(ev: Event, first: EnrichedEvent) {
    first.subscription.Some? && NotApiPostProcessed(ev) && !IsReprocess(ev)
  }

  predicate FlagRefused(outside: Outside, ev: Event, first: EnrichedEvent) {
    Refreshes(ev, first) && !outside.accepts(FlagValue(first))
  }

  /** Charging in advance, flagging and, once the flag is taken, expiry. */
  ghost function RefreshEffects(outside: Outside, events: seq<EnrichedEvent>): seq<Effect>
    requires events != []
  {
    (if PaysInAdvance(events) then Push(outside, InAdvanceTopic, events[0]) else []) +
    [Flag(FlagValue(events[0]))] +
    (if outside.accepts(FlagValue(events[0])) then Expiries(events) else [])
  }

  /** Everything done for an event enriched into `events`. */
  ghost function EffectsOf(outside: Outside, ev: Event, events: seq<EnrichedEvent>): seq<Effect>
    requires events != []
  {
    (if IsReprocess(ev) then [] else Push(outside, EnrichedTopic, events[0])) +
    Expansions(outside, events) +
    (if Refreshes(ev, events[0]) then RefreshEffects(outside, events) else [])
  }

  /** What is done for the result of an enrichment: nothing if it failed. */
  ghost function EffectsOfEnrichment(outside: Outside, ev: Event, found: Result<seq<EnrichedEvent>>): seq<Effect> {
    if found.Success? && found.value != [] then EffectsOf(outside, ev, found.value) else []
  }

  function FlagFailure(outside: Outside): Result<EnrichedEvent> {
    Failure(outside.flagError, "flag_subscription_refresh", "Error flagging subscription refresh", true, true)
  }

  /** processEvent's answer, given the enrichment's: it fails with it, or, to be retried, when
      the flag is refused. */
  ghost predicate Answers(outside: Outside, ev: Event, found: Result<seq<EnrichedEvent>>, result: Result<EnrichedEvent>) {
    match found
    case Failure(error, code, message, retryable, capture) => result == Failure(error, code, message, retryable, capture)
    case Success(events) =>
      events != [] && result == if FlagRefused(outside, ev, events[0]) then FlagFailure(outside) else Success(events[0])
  }

  lemma EffectsInParts(outside: Outside, ev: Event, events: seq<EnrichedEvent>)
    requires events != [] && !IsReprocess(ev)
    ensures multiset(EffectsOf(outside, ev, events)) == multiset(Push(outside, EnrichedTopic, events[0]) + Expansions(outside, events)) +
      if Refreshes(ev, events[0]) then multiset(RefreshEffects(outside, events)) else multiset{}
  {
  }

  lemma OneMoreExpansion(outside: Outside, events: seq<EnrichedEvent>, i: nat)
    requires i < |events|
    ensures Expansions(outside, events[..i + 1]) == Expansions(outside, events[..i]) + Expansion(outside, events[i])
  {
    assert events[..i + 1][..i] == events[..i];
  }

  lemma OneMoreExpiry(events: seq<EnrichedEvent>, i: nat)
    requires i < |events|
    ensures Expiries(events[..i + 1]) == Expiries(events[..i]) + ExpiryOf(events[i])
  {
    assert events[..i + 1][..i] == events[..i];
  }

  /** What has been done grows by what is done next. */
  lemma OneMoreStep(before: multiset<Effect>, done: seq<Effect>, next: seq<Effect>, now: multiset<Effect>, after: multiset<Effect>)
    requires now == before + multiset(done) && after == now + multiset(next)
    ensures after == before + multiset(done + next)
  {
  }

  lemma ThreeSteps(e0: multiset<Effect>, e1: multiset<Effect>, e2: multiset<Effect>, e3: multiset<Effect>,
                   a: seq<Effect>, b: seq<Effect>, c: seq<Effect>)
    requires e1 == e0 + multiset(a) && e2 == e1 + multiset(b) && e3 == e2 + multiset(c)
    ensures e3 == e0 + multiset(a + b + c)
  {
  }

  class EventProcessor {
    const src: Sources
    const outside: Outside
    /** All effects so far. */
    var effects: multiset<Effect>

    constructor (src: Sources, outside: Outside)
      ensures this.src == src && this.outside == outside && effects == multiset{}
    {
      this.src, this.outside, effects := src, outside, multiset{};
    }

    /** ProduceToDeadLetterQueue */
    method ProduceToDeadLetterQueue(ev: Event, error: string, code: string, message: string)
      modifies this
      ensures effects == old(effects) + multiset([DeadLetter(ev, error, code, message)])
    {
      effects := effects + multiset{DeadLetter(ev, error, code, message)};
    }

    /** produceEvent, for an event that can be marshalled. */
    method Produce(topic: Topic, e: EnrichedEvent)
      modifies this
      ensures effects == old(effects) + multiset(Push(outside, topic, e))
    {
      effects := effects + multiset{Attempt(topic, e)};
      if !outside.delivers(topic, e) {
        ProduceToDeadLetterQueue(e.initial, PushError(outside, topic), "", "");
      }
    }

    method ProduceIfCharged(e: EnrichedEvent)
      modifies this
      ensures effects == old(effects) + multiset(Expansion(outside, e))
    {
      if e.chargeId.Some? {
        Produce(ExpandedTopic, e);
      }
    }

    /** The loop that pushes an expanded event for every charged copy. */
    method ProduceExpanded(events: seq<EnrichedEvent>)
      modifies this
      ensures effects == old(effects) + multiset(Expansions(outside, events))
    {
      for i := 0 to |events|
        invariant effects == old(effects) + multiset(Expansions(outside, events[..i]))
      {
        ghost var now := effects;
        ProduceIfCharged(events[i]);
        OneMoreStep(old(effects), Expansions(outside, events[..i]), Expansion(outside, events[i]), now, effects);
        OneMoreExpansion(outside, events, i);
      }
      assert events[..|events|] == events;
    }

    method AnyPaysInAdvance(events: seq<EnrichedEvent>) returns (pays: bool)
      ensures pays == PaysInAdvance(events)
    {
      pays := false;
      for i := 0 to |events|
        invariant !pays && forall j :: 0 <= j < i ==> !(events[j].flatFilter.Some? && events[j].flatFilter.value.payInAdvance)
      {
        if events[i].flatFilter.Some? && events[i].flatFilter.value.payInAdvance {
          return true;
        }
      }
    }

    /** ChargeCache.Expire */
    method Expire(filter: FlatFilter, subscriptionId: string)
      modifies this
      ensures effects == old(effects) + multiset([Expiry(filter, subscriptionId)])
    {
      effects := effects + multiset{Expiry(filter, subscriptionId)};
    }

    /** The body of the loop of ExpireCache: a copy without a filter is passed over. */
    method ExpireOne(e: EnrichedEvent)
      modifies this
      ensures effects == old(effects) + multiset(ExpiryOf(e))
    {
      if e.flatFilter.None? {
        return;
      }
      Expire(e.flatFilter.value, SubscriptionId(e));
    }

    /** ExpireCache */
    method ExpireCache(events: seq<EnrichedEvent>)
      modifies this
      ensures effects == old(effects) + multiset(Expiries(events))
    {
      for i := 0 to |events|
        invariant effects == old(effects) + multiset(Expiries(events[..i]))
      {
        ghost var now := effects;
        ExpireOne(events[i]);
        OneMoreStep(old(effects), Expiries(events[..i]), ExpiryOf(events[i]), now, effects);
        OneMoreExpiry(events, i);
      }
      assert events[..|events|] == events;
    }

    /** FlagSubscriptionRefresh */
    method FlagSubscriptionRefresh(e: EnrichedEvent) returns (flag: Result<bool>)
      modifies this
      ensures effects == old(effects) + multiset([Flag(FlagValue(e))])
      ensures flag == if outside.accepts(FlagValue(e)) then Success(true) else Failed(outside.flagError)
    {
      effects := effects + multiset{Flag(FlagValue(e))};
      flag := if outside.accepts(FlagValue(e)) then Success(true) else Failed(outside.flagError);
    }

    /** Charging in advance, flagging and expiry. */
    method Refresh(events: seq<EnrichedEvent>) returns (flag: Result<bool>)
      requires events != []
      modifies this
      ensures effects == old(effects) + multiset(RefreshEffects(outside, events))
      ensures flag == if outside.accepts(FlagValue(events[0])) then Success(true) else Failed(outside.flagError)
    {
      ghost var before := effects;
      var pays := AnyPaysInAdvance(events);
      if pays {
        Produce(InAdvanceTopic, events[0]);
      }
      ghost var pushed := effects;
      flag := FlagSubscriptionRefresh(events[0]);
      ghost var marked := effects;
      if flag.Success? {
        ExpireCache(events);
      }
      ThreeSteps(before, pushed, marked, effects,
                 if PaysInAdvance(events) then Push(outside, InAdvanceTopic, events[0]) else [],
                 [Flag(FlagValue(events[0]))],
                 if outside.accepts(FlagValue(events[0])) then Expiries(events) else []);
    }

    /** processEvent.  `found` is what the enrichment returned. */
    method ProcessEvent(ev: Event) returns (result: Result<EnrichedEvent>, ghost found: Result<seq<EnrichedEvent>>, ghost order: seq<string>)
      modifies this
      ensures Enriched(src, ev, found, order) && Answers(outside, ev, found, result)
      ensures effects == old(effects) + multiset(EffectsOfEnrichment(outside, ev, found))
    {
      var enrichment := EnrichEvent(src, ev);
      order :| Enriched(src, ev, enrichment, order);
      found := enrichment;
      if enrichment.Failure? {
        return Wrapped(enrichment, enrichment.code, enrichment.message), found, order;
      }
      SuccessIsNonEmpty(src, ev, enrichment, order);
      result := ApplyEffects(ev, enrichment.value);
    }

    method ProduceEnrichedAndExpanded(events: seq<EnrichedEvent>)
      requires events != []
      modifies this
      ensures effects == old(effects) + multiset(Push(outside, EnrichedTopic, events[0]) + Expansions(outside, events))
    {
      Produce(EnrichedTopic, events[0]);
      ProduceExpanded(events);
    }

    /** processEvent after the enrichment. */
    method ApplyEffects(ev: Event, events: seq<EnrichedEvent>) returns (result: Result<EnrichedEvent>)
      requires events != []
      modifies this
      ensures Answers(outside, ev, Success(events), result)
      ensures effects == old(effects) + multiset(EffectsOf(outside, ev, events))
    {
      result := Success(events[0]);
      if IsReprocess(ev) {
        ProduceExpanded(events);
        assert EffectsOf(outside, ev, events) == Expansions(outside, events);
        return;
      }
      EffectsInParts(outside, ev, events);
      ProduceEnrichedAndExpanded(events);
      if events[0].subscription.Some? && NotApiPostProcessed(ev) {
        var flag := Refresh(events);
        if flag.Failure? {
          result := Wrapped(flag, "flag_subscription_refresh", "Error flagging subscription refresh");
        }
      }
    }

    /** The verdict on a processed event: whether its record is settled, and its own dead
        letter if it is given up. */
    method Settle(ev: Event, processed: Result<EnrichedEvent>, now: int) returns (settled: bool)
      modifies this
      ensures settled == !(processed.Failure? && processed.retryable && now - ev.ingestedAt < Workers.TWELVE_HOURS)
      ensures effects == old(effects) + multiset(LastLetter(ev, settled, processed))
    {
      settled := true;
      if processed.Failure? {
        if processed.retryable && now - ev.ingestedAt < Workers.TWELVE_HOURS {
          settled := false;
        } else {
          ProduceToDeadLetterQueue(ev, processed.error, processed.code, processed.message);
        }
      }
    }

    /** What a worker does with one record: None stands for a value that does not decode.  The
        event's own dead letter comes on top of those of its pushes. */
    method HandleRecord(decoded: Option<Event>, now: int)
      returns (settled: bool, ghost found: Result<seq<EnrichedEvent>>, ghost order: seq<string>, ghost result: Result<EnrichedEvent>)
      modifies this
      ensures settled == Workers.Settled(OutcomeOf(outside, decoded, found, now))
      ensures decoded.Some? ==> Enriched(src, decoded.value, found, order) && Answers(outside, decoded.value, found, result)
      ensures effects == old(effects) + multiset(EffectsOfRecord(outside, decoded, found, settled, result))
    {
      if decoded.None? {
        return true, Failed(""), [], Failed("");
      }
      var processed;
      processed, found, order := ProcessEvent(decoded.value);
      result := processed;
      settled := Settle(decoded.value, processed, now);
      VerdictIsOutcome(outside, decoded.value, found, result, now);
    }
  }

  /** Where the handling of a record leaves it. */
  ghost function OutcomeOf(outside: Outside, decoded: Option<Event>, found: Result<seq<EnrichedEvent>>, now: int): Workers.Outcome {
    if decoded.None? then
      Workers.Undecodable
    else
      var ev := decoded.value;
      match found
      case Failure(_, _, _, retryable, _) => Workers.Outcome.Failed(retryable, now - ev.ingestedAt)
      case Success(events) =>
        if events != [] && FlagRefused(outside, ev, events[0]) then
          Workers.Outcome.Failed(true, now - ev.ingestedAt)
        else
          Workers.Succeeded
  }

  lemma VerdictIsOutcome(outside: Outside, ev: Event, found: Result<seq<EnrichedEvent>>, result: Result<EnrichedEvent>, now: int)
    requires Answers(outside, ev, found, result)
    ensures Workers.Settled(OutcomeOf(outside, Some(ev), found, now)) ==
      !(result.Failure? && result.retryable && now - ev.ingestedAt < Workers.TWELVE_HOURS)
    ensures Workers.DeadLetter(OutcomeOf(outside, Some(ev), found, now)) <==>
      result.Failure? && Workers.Settled(OutcomeOf(outside, Some(ev), found, now))
  {
  }

  /** The dead letter of an event that is given up. */
  ghost function LastLetter(ev: Event, settled: bool, result: Result<EnrichedEvent>): seq<Effect> {
    if settled && result.Failure? then [DeadLetter(ev, result.error, result.code, result.message)] else []
  }

  /** Everything done for a record. */
  ghost function EffectsOfRecord(outside: Outside, decoded: Option<Event>, found: Result<seq<EnrichedEvent>>, settled: bool, result: Result<EnrichedEvent>): seq<Effect> {
    match decoded
    case None => []
    case Some(ev) => EffectsOfEnrichment(outside, ev, found) + LastLetter(ev, settled, result)
  }

  /** A record is left to be consumed again exactly when its event is less than twelve hours
      old and fails for a passing reason: not its timestamp, an unknown metric or its
      expression. */
  lemma LeftForRetryExactlyWhen(src: Sources, outside: Outside, ev: Event, found: Result<seq<EnrichedEvent>>, order: seq<string>, now: int)
    requires Enriched(src, ev, found, order)
    requires FlagsConventional(src.metric(ev.organizationId, ev.code))
    requires forall t :: FlagsConventional(src.subscription(ev.organizationId, ev.externalSubscriptionId, t))
    ensures !Workers.Settled(OutcomeOf(outside, Some(ev), found, now)) <==>
      && now - ev.ingestedAt < 12 * 3600 * 1_000_000_000
      && (found.Failure? || (found.value != [] && FlagRefused(outside, ev, found.value[0])))
      && !TimestampFails(ev) && !MetricNotFound(src, ev) && !ExpressionFails(src, ev)
  {
    RetryClassification(src, ev, found, order);
  }

  datatype Kind = Pushes(topic: Topic) | FailedPushes | Letters | Flags | Expirations

  predicate IsOf(outside: Outside, effect: Effect, kind: Kind) {
    match kind
    case Pushes(topic) => effect.Attempt? && effect.topic == topic
    case FailedPushes => effect.Attempt? && !outside.delivers(effect.topic, effect.event)
    case Letters => effect.DeadLetter?
    case Flags => effect.Flag?
    case Expirations => effect.Expiry?
  }

  function Count(outside: Outside, effects: seq<Effect>, kind: Kind): nat {
    if effects == [] then
      0
    else
      Count(outside, effects[..|effects| - 1], kind) + if IsOf(outside, effects[|effects| - 1], kind) then 1 else 0
  }

  lemma {:induction false} CountConcat(outside: Outside, a: seq<Effect>, b: seq<Effect>, kind: Kind)
    ensures Count(outside, a + b, kind) == Count(outside, a, kind) + Count(outside, b, kind)
  {
    if b == [] {
      assert a + b == a;
    } else {
      assert (a + b)[..|a + b| - 1] == a + b[..|b| - 1];
      CountConcat(outside, a, b[..|b| - 1], kind);
    }
  }

  lemma CountOne(outside: Outside, effect: Effect, kind: Kind)
    ensures Count(outside, [effect], kind) == if IsOf(outside, effect, kind) then 1 else 0
  {
    assert [effect][..0] == [];
  }

  /** What one push adds up to. */
  function PushCount(outside: Outside, topic: Topic, e: EnrichedEvent, kind: Kind): nat {
    match kind
    case Pushes(t) => if t == topic then 1 else 0
    case FailedPushes => if outside.delivers(topic, e) then 0 else 1
    case Letters => if outside.delivers(topic, e) then 0 else 1
    case Flags => 0
    case Expirations => 0
  }

  lemma CountPush(outside: Outside, topic: Topic, e: EnrichedEvent, kind: Kind)
    ensures Count(outside, Push(outside, topic, e), kind) == PushCount(outside, topic, e, kind)
  {
    var attempt := Attempt(topic, e);
    CountOne(outside, attempt, kind);
    if !outside.delivers(topic, e) {
      var letter := DeadLetter(e.initial, PushError(outside, topic), "", "");
      CountOne(outside, letter, kind);
      CountConcat(outside, [attempt], [letter], kind);
      assert Push(outside, topic, e) == [attempt] + [letter];
    }
  }

  /** Of expanded pushes, as many fail as leave dead letters. */
  lemma {:induction false} FailedLeaveLetters(outside: Outside, events: seq<EnrichedEvent>)
    ensures Count(outside, Expansions(outside, events), FailedPushes) == Count(outside, Expansions(outside, events), Letters)
  {
    if events != [] {
      var front, last := events[..|events| - 1], events[|events| - 1];
      FailedLeaveLetters(outside, front);
      CountLast(outside, front, last, FailedPushes);
      CountLast(outside, front, last, Letters);
    }
  }

  lemma {:induction false} CountExpansions(outside: Outside, events: seq<EnrichedEvent>, kind: Kind)
    requires AllChargedOrAlone(events)
    ensures Count(outside, Expansions(outside, events), kind) == ExpansionCount(outside, events, kind)
  {
    if kind.FailedPushes? {
      FailedLeaveLetters(outside, events);
    } else if events != [] && !kind.Letters? {
      CountExpansions(outside, events[..|events| - 1], kind);
      CountLast(outside, events[..|events| - 1], events[|events| - 1], kind);
    }
  }

  lemma CountLast(outside: Outside, front: seq<EnrichedEvent>, last: EnrichedEvent, kind: Kind)
    ensures Count(outside, Expansions(outside, front) + Expansion(outside, last), kind) == Count(outside, Expansions(outside, front), kind) +
      if last.chargeId.Some? then PushCount(outside, ExpandedTopic, last, kind) else 0
  {
    CountConcat(outside, Expansions(outside, front), Expansion(outside, last), kind);
    CountPush(outside, ExpandedTopic, last, kind);
  }

  lemma CountLastExpiry(outside: Outside, front: seq<EnrichedEvent>, last: EnrichedEvent, kind: Kind)
    ensures Count(outside, Expiries(front) + ExpiryOf(last), kind) ==
      Count(outside, Expiries(front), kind) + if last.flatFilter.Some? && kind.Expirations? then 1 else 0
  {
    CountConcat(outside, Expiries(front), ExpiryOf(last), kind);
    if last.flatFilter.Some? {
      CountOne(outside, Expiry(last.flatFilter.value, SubscriptionId(last)), kind);
    }
  }

  lemma {:induction false} CountExpiries(outside: Outside, events: seq<EnrichedEvent>, kind: Kind)
    requires AllChargedOrAlone(events)
    ensures Count(outside, Expiries(events), kind) ==
      if kind.Expirations? && events != [] && events[0].chargeId.Some? then |events| else 0
  {
    if events != [] {
      CountExpiries(outside, events[..|events| - 1], kind);
      CountLastExpiry(outside, events[..|events| - 1], events[|events| - 1], kind);
    }
  }

  /** How many charges an enriched event falls under. */
  ghost function ChargeCount(src: Sources, ev: Event): nat {
    var before := BeforeCharges(src, ev);
    if before.Failure? || before.value.subscription.None? then
      0
    else
      var found := src.filters(ev.organizationId, ev.code, before.value.subscription.value.planId);
      if found.Failure? then 0 else |ChargeIds(found.value)|
  }

  lemma {:induction false} DistinctCount(order: seq<string>, ids: set<string>)
    requires forall i, j :: 0 <= i < j < |order| ==> order[i] != order[j]
    requires forall c :: c in order <==> c in ids
    ensures |order| == |ids|
  {
    if order == [] {
      assert ids == {};
    } else {
      var n := |order| - 1;
      assert order == order[..n] + [order[n]];
      DistinctCount(order[..n], ids - {order[n]});
    }
  }

  /** Every charge gives one copy; an event without any charge stays alone. */
  lemma OneCopyPerCharge(src: Sources, ev: Event, found: Result<seq<EnrichedEvent>>, order: seq<string>)
    requires Enriched(src, ev, found, order) && found.Success?
    ensures found.value != [] && AllChargedOrAlone(found.value)
    ensures ChargeCount(src, ev) == if found.value[0].chargeId.Some? then |found.value| else 0
  {
    SuccessIsNonEmpty(src, ev, found, order);
    UnchargedBeforeCharges(src, ev);
    var e := BeforeCharges(src, ev).value;
    if e.subscription.Some? {
      var filters := src.filters(ev.organizationId, ev.code, e.subscription.value.planId);
      if filters.value == [] {
        assert ChargeIds(filters.value) == {};
      } else {
        BucketsAreCharged(e, filters.value, found.value, order);
        DistinctCount(order, ChargeIds(filters.value));
      }
    }
  }

  lemma CountRefresh(outside: Outside, events: seq<EnrichedEvent>, kind: Kind)
    requires events != [] && AllChargedOrAlone(events)
    ensures Count(outside, RefreshEffects(outside, events), kind) == RefreshCount(outside, events, kind)
  {
    var push := if PaysInAdvance(events) then Push(outside, InAdvanceTopic, events[0]) else [];
    var flag := [Flag(FlagValue(events[0]))];
    var expiries := if outside.accepts(FlagValue(events[0])) then Expiries(events) else [];
    ThreeParts(outside, push, flag, expiries, kind);
    CountPush(outside, InAdvanceTopic, events[0], kind);
    CountOne(outside, flag[0], kind);
    CountExpiries(outside, events, kind);
  }

  lemma ThreeParts(outside: Outside, a: seq<Effect>, b: seq<Effect>, c: seq<Effect>, kind: Kind)
    ensures Count(outside, a + b + c, kind) == Count(outside, a, kind) + Count(outside, b, kind) + Count(outside, c, kind)
  {
    CountConcat(outside, a + b, c, kind);
    CountConcat(outside, a, b, kind);
  }

  lemma CountEffects(outside: Outside, ev: Event, events: seq<EnrichedEvent>, kind: Kind)
    requires events != [] && AllChargedOrAlone(events)
    ensures Count(outside, EffectsOf(outside, ev, events), kind) ==
      (if IsReprocess(ev) then 0 else PushCount(outside, EnrichedTopic, events[0], kind)) +
      Count(outside, Expansions(outside, events), kind) +
      (if Refreshes(ev, events[0]) then Count(outside, RefreshEffects(outside, events), kind) else 0)
  {
    var push := if IsReprocess(ev) then [] else Push(outside, EnrichedTopic, events[0]);
    var refresh := if Refreshes(ev, events[0]) then RefreshEffects(outside, events) else [];
    ThreeParts(outside, push, Expansions(outside, events), refresh, kind);
    CountPush(outside, EnrichedTopic, events[0], kind);
  }

  /** How many effects of a kind an event has, given how many charges it falls under.  Of
      failed pushes and dead letters only their equality is known. */
  ghost function Expected(outside: Outside, ev: Event, events: seq<EnrichedEvent>, charges: nat, kind: Kind): nat
    requires events != [] && !kind.FailedPushes? && !kind.Letters?
  {
    match kind
    case Pushes(EnrichedTopic) => if IsReprocess(ev) then 0 else 1
    case Pushes(ExpandedTopic) => charges
    case Pushes(InAdvanceTopic) => if Refreshes(ev, events[0]) && PaysInAdvance(events) then 1 else 0
    case Flags => if Refreshes(ev, events[0]) then 1 else 0
    case Expirations => if Refreshes(ev, events[0]) && !FlagRefused(outside, ev, events[0]) then charges else 0
  }

  /** The three parts added up. */
  ghost function Sum(outside: Outside, ev: Event, events: seq<EnrichedEvent>, kind: Kind): nat
    requires events != []
  {
    (if IsReprocess(ev) then 0 else PushCount(outside, EnrichedTopic, events[0], kind)) +
    ExpansionCount(outside, events, kind) +
    (if Refreshes(ev, events[0]) then RefreshCount(outside, events, kind) else 0)
  }

  lemma SumIsExpected(outside: Outside, ev: Event, events: seq<EnrichedEvent>, charges: nat, kind: Kind)
    requires events != [] && charges == if events[0].chargeId.Some? then |events| else 0
    requires !kind.FailedPushes? && !kind.Letters?
    ensures Sum(outside, ev, events, kind) == Expected(outside, ev, events, charges, kind)
  {
  }

  lemma CountIsExpected(outside: Outside, ev: Event, events: seq<EnrichedEvent>, charges: nat, kind: Kind)
    requires events != [] && AllChargedOrAlone(events) && charges == if events[0].chargeId.Some? then |events| else 0
    requires !kind.FailedPushes? && !kind.Letters?
    ensures Count(outside, EffectsOf(outside, ev, events), kind) == Expected(outside, ev, events, charges, kind)
  {
    CountsOf(outside, ev, events, kind);
    SumIsExpected(outside, ev, events, charges, kind);
  }

  lemma EveryFailureLeavesALetter(outside: Outside, ev: Event, events: seq<EnrichedEvent>)
    requires events != [] && AllChargedOrAlone(events)
    ensures Count(outside, EffectsOf(outside, ev, events), Letters) == Count(outside, EffectsOf(outside, ev, events), FailedPushes)
  {
    CountsOf(outside, ev, events, Letters);
    CountsOf(outside, ev, events, FailedPushes);
  }

  /** Effects are conserved.  A successfully enriched event gives one enriched push, unless it
      is reprocessed, one expanded push for every charge its plan has for its metric, an
      in-advance push exactly when it refreshes its subscription and a charge is paid in
      advance, one flag when it refreshes, and then one expiry for every charge if the flag is
      taken; and each push that fails gives one dead letter. */
  lemma EffectsOfSuccess(src: Sources, outside: Outside, ev: Event, found: Result<seq<EnrichedEvent>>, order: seq<string>, effects: seq<Effect>)
    requires Enriched(src, ev, found, order) && found.Success? && effects == EffectsOfEnrichment(outside, ev, found)
    ensures found.value != []
    ensures Count(outside, effects, Pushes(EnrichedTopic)) == if IsReprocess(ev) then 0 else 1
    ensures Count(outside, effects, Pushes(ExpandedTopic)) == ChargeCount(src, ev)
    ensures Count(outside, effects, Pushes(InAdvanceTopic)) == if Refreshes(ev, found.value[0]) && PaysInAdvance(found.value) then 1 else 0
    ensures Count(outside, effects, Flags) == if Refreshes(ev, found.value[0]) then 1 else 0
    ensures Count(outside, effects, Expirations) ==
      if Refreshes(ev, found.value[0]) && !FlagRefused(outside, ev, found.value[0]) then ChargeCount(src, ev) else 0
    ensures Count(outside, effects, Letters) == Count(outside, effects, FailedPushes)
  {
    OneCopyPerCharge(src, ev, found, order);
    EffectCounts(outside, ev, found.value, ChargeCount(src, ev));
    EveryFailureLeavesALetter(outside, ev, found.value);
  }

  lemma EffectCounts(outside: Outside, ev: Event, events: seq<EnrichedEvent>, charges: nat)
    requires events != [] && AllChargedOrAlone(events) && charges == if events[0].chargeId.Some? then |events| else 0
    ensures forall kind: Kind :: !kind.FailedPushes? && !kind.Letters? ==>
      Count(outside, EffectsOf(outside, ev, events), kind) == Expected(outside, ev, events, charges, kind)
  {
    forall kind: Kind | !kind.FailedPushes? && !kind.Letters?
      ensures Count(outside, EffectsOf(outside, ev, events), kind) == Expected(outside, ev, events, charges, kind)
    {
      CountIsExpected(outside, ev, events, charges, kind);
    }
  }

  /** The three parts of the effects, one kind at a time. */
  lemma CountsOf(outside: Outside, ev: Event, events: seq<EnrichedEvent>, kind: Kind)
    requires events != [] && AllChargedOrAlone(events)
    ensures Count(outside, EffectsOf(outside, ev, events), kind) == Sum(outside, ev, events, kind)
  {
    CountEffects(outside, ev, events, kind);
    CountRefresh(outside, events, kind);
    CountExpansions(outside, events, kind);
  }

  ghost function ExpansionCount(outside: Outside, events: seq<EnrichedEvent>, kind: Kind): nat
  {
    match kind
    case Pushes(topic) => if topic == ExpandedTopic && events != [] && events[0].chargeId.Some? then |events| else 0
    case FailedPushes => Count(outside, Expansions(outside, events), Letters)
    case Letters => Count(outside, Expansions(outside, events), Letters)
    case Flags => 0
    case Expirations => 0
  }

  ghost function RefreshCount(outside: Outside, events: seq<EnrichedEvent>, kind: Kind): nat
    requires events != []
  {
    (if PaysInAdvance(events) then PushCount(outside, InAdvanceTopic, events[0], kind) else 0) +
    (if kind.Flags? then 1 else 0) +
    (if kind.Expirations? && outside.accepts(FlagValue(events[0])) && events[0].chargeId.Some? then |events| else 0)
  }

  /** The event is neither reprocessed nor already post-processed by the API. */
  predicate IsFresh(ev: Event) {
    match ev.metadata
    case None => true
    case Some(m) => !m.reprocess && (ev.source != "http_ruby" || !m.apiPostProcess)
  }

  predicate IsReprocessed(ev: Event) {
    ev.metadata.Some? && ev.metadata.value.reprocess
  }

  lemma RefreshesFields(ev: Event, first: EnrichedEvent)
    ensures IsReprocess(ev) <==> IsReprocessed(ev)
    ensures Refreshes(ev, first) <==> first.subscription.Some? && IsFresh(ev)
  {
  }

  /** The value flagged for a subscription: its organization and its id. */
  lemma FlagText(e: EnrichedEvent)
    requires e.subscription.Some?
    ensures FlagValue(e) == e.initial.organizationId + ":" + e.subscription.value.id
  {
  }

  /** The numbers of effects on the fields of the event.  A reprocessed event is only expanded.
      Any other gives one enriched push; and if it has a subscription and the API has not
      post-processed it, one flag, an in-advance push when some copy is paid in advance, and one
      expiry per charge if the flag store takes the subscription. */
  lemma EffectsByEvent(src: Sources, outside: Outside, ev: Event, found: Result<seq<EnrichedEvent>>, order: seq<string>, effects: seq<Effect>)
    requires Enriched(src, ev, found, order) && found.Success? && effects == EffectsOfEnrichment(outside, ev, found)
    ensures found.value != []
    ensures Count(outside, effects, Pushes(EnrichedTopic)) == if ev.metadata.Some? && ev.metadata.value.reprocess then 0 else 1
    ensures var sub := found.value[0].subscription;
      if sub.Some? && IsFresh(ev) then
        && Count(outside, effects, Flags) == 1
        && Count(outside, effects, Pushes(InAdvanceTopic)) ==
             (if exists x :: x in found.value && x.flatFilter.Some? && x.flatFilter.value.payInAdvance then 1 else 0)
        && Count(outside, effects, Expirations) == (if outside.accepts(ev.organizationId + ":" + sub.value.id) then ChargeCount(src, ev) else 0)
      else
        Count(outside, effects, Flags) == Count(outside, effects, Pushes(InAdvanceTopic)) == Count(outside, effects, Expirations) == 0
  {
    EffectsOfSuccess(src, outside, ev, found, order, effects);
    SuccessIsNonEmpty(src, ev, found, order);
    RefreshesFields(ev, found.value[0]);
    PaidBySome(found.value);
    if found.value[0].subscription.Some? {
      FlagText(found.value[0]);
    }
  }

  lemma PaidBySome(events: seq<EnrichedEvent>)
    ensures PaysInAdvance(events) <==> exists x :: x in events && x.flatFilter.Some? && x.flatFilter.value.payInAdvance
  {
    if x :| x in events && x.flatFilter.Some? && x.flatFilter.value.payInAdvance {
      var i :| 0 <= i < |events| && events[i] == x;
    }
    if PaysInAdvance(events) {
      var i :| 0 <= i < |events| && events[i].flatFilter.Some? && events[i].flatFilter.value.payInAdvance;
      assert events[i] in events;
    }
  }

  lemma {:induction false} InExpansions(outside: Outside, events: seq<EnrichedEvent>, x: Effect)
    ensures x in Expansions(outside, events) <==> exists e :: e in events && e.chargeId.Some? && x in Push(outside, ExpandedTopic, e)
  {
    if events != [] {
      var front, last := events[..|events| - 1], events[|events| - 1];
      assert events == front + [last];
      InExpansions(outside, front, x);
    }
  }

  lemma {:induction false} InExpiries(events: seq<EnrichedEvent>, x: Effect)
    ensures x in Expiries(events) <==>
      exists e :: e in events && e.flatFilter.Some? && x == Expiry(e.flatFilter.value, SubscriptionId(e))
  {
    if events != [] {
      var front, last := events[..|events| - 1], events[|events| - 1];
      assert events == front + [last];
      InExpiries(front, x);
    }
  }

  /** Whether an event is to be pushed to a topic. */
  ghost predicate IsPushed(ev: Event, events: seq<EnrichedEvent>, topic: Topic, e: EnrichedEvent) {
    events != [] &&
    match topic
    case EnrichedTopic => e == events[0] && !IsReprocessed(ev)
    case ExpandedTopic => e in events && e.chargeId.Some?
    case InAdvanceTopic =>
      e == events[0] && e.subscription.Some? && IsFresh(ev) && exists x :: x in events && x.flatFilter.Some? && x.flatFilter.value.payInAdvance
  }

  /** Whether an effect belongs to an event enriched into `events`. */
  ghost predicate Belongs(outside: Outside, ev: Event, events: seq<EnrichedEvent>, x: Effect) {
    && events != []
    && var sub := events[0].subscription;
    match x
    case Attempt(topic, e) => IsPushed(ev, events, topic, e)
    case DeadLetter(failed, error, code, message) =>
      && code == "" && message == ""
      && exists topic, e :: LeavesLetter(outside, ev, events, topic, e, failed, error)
    case Flag(value) => sub.Some? && IsFresh(ev) && value == events[0].initial.organizationId + ":" + sub.value.id
    case Expiry(filter, subscriptionId) =>
      && sub.Some? && IsFresh(ev) && outside.accepts(events[0].initial.organizationId + ":" + sub.value.id)
      && exists e :: e in events && e.flatFilter == Some(filter) && subscriptionId == if e.subscription.Some? then e.subscription.value.id else ""
  }

  /** The push fails and leaves a letter about the event with the topic's name. */
  ghost predicate LeavesLetter(outside: Outside, ev: Event, events: seq<EnrichedEvent>, topic: Topic, e: EnrichedEvent, failed: Event, error: string) {
    && IsPushed(ev, events, topic, e) && !outside.delivers(topic, e)
    && failed == e.initial && error == "failed to push to " + outside.topicName(topic) + " topic"
  }

  lemma InPush(outside: Outside, topic: Topic, e: EnrichedEvent, x: Effect)
    ensures x in Push(outside, topic, e) <==>
      || x == Attempt(topic, e)
      || (!outside.delivers(topic, e) && x == DeadLetter(e.initial, "failed to push to " + outside.topicName(topic) + " topic", "", ""))
  {
  }

  /** Where an effect of an event comes from. */
  lemma InEffects(outside: Outside, ev: Event, events: seq<EnrichedEvent>, x: Effect)
    requires events != []
    ensures x in EffectsOf(outside, ev, events) <==>
      || (exists topic, e :: IsPushed(ev, events, topic, e) && x in Push(outside, topic, e))
      || (events[0].subscription.Some? && IsFresh(ev) && x == Flag(FlagValue(events[0])))
      || (events[0].subscription.Some? && IsFresh(ev) && outside.accepts(FlagValue(events[0])) && x in Expiries(events))
  {
    RefreshesFields(ev, events[0]);
    PaidBySome(events);
    InExpansions(outside, events, x);
    if e :| e in events && e.chargeId.Some? && x in Push(outside, ExpandedTopic, e) {
      assert IsPushed(ev, events, ExpandedTopic, e);
    }
    if !IsReprocess(ev) && x in Push(outside, EnrichedTopic, events[0]) {
      assert IsPushed(ev, events, EnrichedTopic, events[0]);
    }
    if Refreshes(ev, events[0]) && PaysInAdvance(events) && x in Push(outside, InAdvanceTopic, events[0]) {
      assert IsPushed(ev, events, InAdvanceTopic, events[0]);
    }
    if topic, e :| IsPushed(ev, events, topic, e) && x in Push(outside, topic, e) {
      PushedIsDone(outside, ev, events, topic, e, x);
    }
  }

  lemma PushedIsDone(outside: Outside, ev: Event, events: seq<EnrichedEvent>, topic: Topic, e: EnrichedEvent, x: Effect)
    requires IsPushed(ev, events, topic, e) && x in Push(outside, topic, e)
    ensures x in EffectsOf(outside, ev, events)
  {
    RefreshesFields(ev, events[0]);
    PaidBySome(events);
    InExpansions(outside, events, x);
  }

  lemma AttemptsBelong(outside: Outside, ev: Event, events: seq<EnrichedEvent>, topic: Topic, e: EnrichedEvent)
    requires events != []
    ensures Attempt(topic, e) in EffectsOf(outside, ev, events) <==> IsPushed(ev, events, topic, e)
  {
    var x := Attempt(topic, e);
    InEffects(outside, ev, events, x);
    InExpiries(events, x);
    InPush(outside, topic, e, x);
    if t, d :| IsPushed(ev, events, t, d) && x in Push(outside, t, d) {
      InPush(outside, t, d, x);
    }
  }

  lemma LettersBelong(outside: Outside, ev: Event, events: seq<EnrichedEvent>, failed: Event, error: string, code: string, message: string)
    requires events != []
    ensures DeadLetter(failed, error, code, message) in EffectsOf(outside, ev, events) <==>
      code == "" && message == "" && exists topic, e :: LeavesLetter(outside, ev, events, topic, e, failed, error)
  {
    var x := DeadLetter(failed, error, code, message);
    InEffects(outside, ev, events, x);
    InExpiries(events, x);
    if topic, e :| IsPushed(ev, events, topic, e) && x in Push(outside, topic, e) {
      InPush(outside, topic, e, x);
      assert LeavesLetter(outside, ev, events, topic, e, failed, error);
    }
    if code == "" && message == "" {
      if topic, e :| LeavesLetter(outside, ev, events, topic, e, failed, error) {
        InPush(outside, topic, e, x);
      }
    }
  }

  lemma FlagsBelong(outside: Outside, ev: Event, events: seq<EnrichedEvent>, value: string)
    requires events != []
    ensures Flag(value) in EffectsOf(outside, ev, events) <==> Belongs(outside, ev, events, Flag(value))
  {
    var x := Flag(value);
    InEffects(outside, ev, events, x);
    InExpiries(events, x);
    if topic, e :| IsPushed(ev, events, topic, e) && x in Push(outside, topic, e) {
      InPush(outside, topic, e, x);
    }
    if events[0].subscription.Some? {
      FlagText(events[0]);
    }
  }

  lemma ExpiriesBelong(outside: Outside, ev: Event, events: seq<EnrichedEvent>, filter: FlatFilter, subscriptionId: string)
    requires events != []
    ensures Expiry(filter, subscriptionId) in EffectsOf(outside, ev, events) <==> Belongs(outside, ev, events, Expiry(filter, subscriptionId))
  {
    var x := Expiry(filter, subscriptionId);
    InEffects(outside, ev, events, x);
    InExpiries(events, x);
    if topic, e :| IsPushed(ev, events, topic, e) && x in Push(outside, topic, e) {
      InPush(outside, topic, e, x);
    }
    if events[0].subscription.Some? {
      FlagText(events[0]);
    }
    if e :| e in events && e.flatFilter == Some(filter) && subscriptionId == SubscriptionId(e) {
      assert x == Expiry(e.flatFilter.value, SubscriptionId(e));
    }
  }

  /** The effects one by one: exactly those that belong to the event. */
  lemma EffectsBelong(outside: Outside, ev: Event, events: seq<EnrichedEvent>, x: Effect)
    requires events != []
    ensures x in EffectsOf(outside, ev, events) <==> Belongs(outside, ev, events, x)
  {
    match x
    case Attempt(topic, e) => AttemptsBelong(outside, ev, events, topic, e);
    case DeadLetter(failed, error, code, message) => LettersBelong(outside, ev, events, failed, error, code, message);
    case Flag(value) => FlagsBelong(outside, ev, events, value);
    case Expiry(filter, subscriptionId) => ExpiriesBelong(outside, ev, events, filter, subscriptionId);
  }
}
