/** Which subscription an event belongs to: the cache's search, and the SQL query it stands
    in for. */
module Subscriptions {
  import opened Options
  import opened Times
  import opened Keys
  import opened Scan
  import opened Entities

  type Sub = e: Entity | e.Subscription? witness Subscription("", "", "", "", None, None)

  /** The cache's test: started at or before ts and not terminated before it. */
  predicate Eligible(s: Sub, ts: int) {
    && s.startedAt.Some? && s.startedAt.value <= ts
    && (s.terminatedAt.None? || s.terminatedAt.value > ts || s.terminatedAt.value == ts)
  }

  /** The query's WHERE clause; a NULL start satisfies nothing. */
  predicate SqlEligible(s: Sub, ts: int) {
    && s.startedAt.Some? && TruncateToMilli(s.startedAt.value) <= ts
    && (s.terminatedAt.None? || TruncateToMilli(s.terminatedAt.value) >= ts)
  }

  /** a comes strictly before b under ORDER BY terminated_at DESC NULLS FIRST, started_at DESC. */
  predicate Outranks(a: Sub, b: Sub) {
    if a.terminatedAt != b.terminatedAt then
      a.terminatedAt.None? || (b.terminatedAt.Some? && a.terminatedAt.value > b.terminatedAt.value)
    else
      a.startedAt.Some? && b.startedAt.Some? && a.startedAt.value > b.startedAt.value
  }

  /** The ranking: a row that is not terminated goes before one that is, a later termination before
      an earlier one, and between equals the later start goes first; it is a strict weak order. */
  lemma RankingIsAnOrder(a: Sub, b: Sub, c: Sub)
    requires a.startedAt.Some? && b.startedAt.Some? && c.startedAt.Some?
    ensures a.terminatedAt.None? && b.terminatedAt.Some? ==> Outranks(a, b) && !Outranks(b, a)
    ensures a.terminatedAt.Some? && b.terminatedAt.Some? && a.terminatedAt.value > b.terminatedAt.value ==> Outranks(a, b) && !Outranks(b, a)
    ensures a.terminatedAt == b.terminatedAt ==> (Outranks(a, b) <==> a.startedAt.value > b.startedAt.value)
    ensures !Outranks(a, a)
    ensures Outranks(a, b) && Outranks(b, c) ==> Outranks(a, c)
    ensures !Outranks(a, b) && !Outranks(b, c) ==> !Outranks(a, c)
  {
  }

  /** answer is a row that comes first among the eligible ones, None if there is none. */
  ghost predicate IsAnswer(rows: seq<Sub>, eligible: Sub -> bool, answer: Option<Sub>) {
    match answer
    case None => forall s :: s in rows ==> !eligible(s)
    case Some(best) => best in rows && eligible(best) && forall s :: s in rows && eligible(s) ==> !Outranks(s, best)
  }

  function At(ts: int): Sub -> bool {
    (s: Sub) => Eligible(s, ts)
  }

  function SqlAt(ts: int): Sub -> bool {
    (s: Sub) => SqlEligible(s, ts)
  }

  /** The first loop of SearchSubscriptions. */
  method KeepEligible(subs: seq<Sub>, ts: int) returns (valid: seq<Sub>)
    ensures forall s :: s in valid <==> s in subs && Eligible(s, ts)
  {
    valid := [];
    for i := 0 to |subs|
      invariant forall s :: s in valid <==> s in subs[..i] && Eligible(s, ts)
    {
      var sub := subs[i];
      assert subs[..i + 1] == subs[..i] + [sub];
      if sub.startedAt.None? {
        continue;
      }
      if sub.startedAt.value > ts {
        continue;
      }
      if sub.terminatedAt.None? || sub.terminatedAt.value > ts || sub.terminatedAt.value == ts {
        valid := valid + [sub];
      }
    }
    assert subs[..|subs|] == subs;
  }

  /** The second loop, branch by branch. */
  method Prefer(best: Sub, sub: Sub) returns (better: Sub)
    ensures better == if Outranks(sub, best) then sub else best
  {
    better := best;
    if best.terminatedAt.None? && sub.terminatedAt.Some? {
      return;
    }
    if best.terminatedAt.Some? && sub.terminatedAt.None? {
      return sub;
    }
    if best.terminatedAt.Some? && sub.terminatedAt.Some? {
      if sub.terminatedAt.value > best.terminatedAt.value {
        return sub;
      }
      if sub.terminatedAt.value < best.terminatedAt.value {
        return;
      }
    }
    if sub.startedAt.Some? && best.startedAt.Some? {
      if sub.startedAt.value > best.startedAt.value {
        better := sub;
      }
    }
  }

  method KeepBest(valid: seq<Sub>) returns (best: Option<Sub>)
    requires forall i :: 0 <= i < |valid| ==> valid[i].startedAt.Some?
    ensures valid == [] ==> best.None?
    ensures valid != [] ==> best.Some? && best.value in valid
    ensures best.Some? ==> forall i :: 0 <= i < |valid| ==> !Outranks(valid[i], best.value)
  {
    best := None;
    for i := 0 to |valid|
      invariant i == 0 <==> best.None?
      invariant best.Some? ==> best.value in valid && best.value.startedAt.Some?
      invariant best.Some? ==> forall j :: 0 <= j < i ==> !Outranks(valid[j], best.value)
    {
      if best.None? {
        best := Some(valid[i]);
        continue;
      }
      var better := Prefer(best.value, valid[i]);
      best := Some(better);
    }
  }

  method Select(subs: seq<Sub>, ts: int) returns (answer: Option<Sub>)
    ensures IsAnswer(subs, At(ts), answer)
  {
    var valid := KeepEligible(subs, ts);
    assert forall i :: 0 <= i < |valid| ==> valid[i] in valid;
    answer := KeepBest(valid);
    assert valid != [] ==> valid[0] in valid;
    forall s | s in subs && Eligible(s, ts)
      ensures answer.Some? && !Outranks(s, answer.value)
    {
      var i :| 0 <= i < |valid| && valid[i] == s;
    }
  }

  /** Rows of the same rank under the ORDER BY. */
  predicate SameRank(a: Sub, b: Sub) {
    a.terminatedAt == b.terminatedAt && a.startedAt == b.startedAt
  }

  /** Whatever order the rows are enumerated in, the answers have the same rank, so they are
      the same row when no two eligible rows tie. */
  lemma AnswerIndependentOfOrder(rows: seq<Sub>, rows': seq<Sub>, ts: int, a: Option<Sub>, b: Option<Sub>)
    requires forall s :: s in rows <==> s in rows'
    requires IsAnswer(rows, At(ts), a) && IsAnswer(rows', At(ts), b)
    ensures a.Some? <==> b.Some?
    ensures a.Some? ==> SameRank(a.value, b.value)
    ensures (forall s, t :: s in rows && t in rows && Eligible(s, ts) && Eligible(t, ts) && SameRank(s, t) ==> s == t) ==> a == b
  {
  }

  /** Rows that one test admits and the other does not. */
  lemma EligibilityGap(s: Sub, ts: int)
    ensures SqlEligible(s, ts) && !Eligible(s, ts) <==>
      && s.startedAt.Some? && ts < s.startedAt.value < NextTick(ts)
      && (s.terminatedAt.None? || s.terminatedAt.value >= CeilTick(ts))
    ensures Eligible(s, ts) && !SqlEligible(s, ts) <==>
      && s.startedAt.Some? && s.startedAt.value <= ts
      && s.terminatedAt.Some? && ts <= s.terminatedAt.value < CeilTick(ts)
  {
    if s.startedAt.Some? {
      TruncatedComparisons(s.startedAt.value, ts);
    }
    if s.terminatedAt.Some? {
      TruncatedComparisons(s.terminatedAt.value, ts);
    }
  }

  /** A row that started within the millisecond after ts: the query admits it, the cache does
      not. */
  predicate StartsWithinTick(s: Sub, ts: int) {
    && s.startedAt.Some? && ts < s.startedAt.value < ts + 1_000_000
    && (s.terminatedAt.None? || s.terminatedAt.value >= ts)
  }

  /** For an event time on a millisecond boundary, which every numeric timestamp gives, those
      rows are the whole difference. */
  lemma AlignedGap(s: Sub, ts: int)
    requires Aligned(ts)
    ensures SqlEligible(s, ts) <==> Eligible(s, ts) || StartsWithinTick(s, ts)
    ensures !(Eligible(s, ts) && StartsWithinTick(s, ts))
  {
    EligibilityGap(s, ts);
    TruncatedComparisons(ts, ts);
  }

  /** In terms of the answer: it answers the query exactly when no row of that kind outranks
      it. */
  lemma RefinesSqlByAnswer(rows: seq<Sub>, ts: int, answer: Option<Sub>)
    requires Aligned(ts) && IsAnswer(rows, At(ts), answer)
    ensures IsAnswer(rows, SqlAt(ts), answer) <==>
      forall s :: s in rows && StartsWithinTick(s, ts) ==> answer.Some? && !Outranks(s, answer.value)
  {
    forall s: Sub
      ensures SqlAt(ts)(s) <==> At(ts)(s) || StartsWithinTick(s, ts)
    {
      AlignedGap(s, ts);
    }
  }

  /** Some row that the cache admits is not outranked by s. */
  ghost predicate Matched(rows: seq<Sub>, ts: int, s: Sub) {
    exists t :: t in rows && Eligible(t, ts) && !Outranks(s, t)
  }

  lemma MatchedByAnswer(rows: seq<Sub>, ts: int, answer: Option<Sub>, s: Sub)
    requires IsAnswer(rows, At(ts), answer) && s.startedAt.Some?
    ensures Matched(rows, ts, s) <==> answer.Some? && !Outranks(s, answer.value)
  {
    if t :| t in rows && Eligible(t, ts) && !Outranks(s, t) {
      assert At(ts)(t) && !Outranks(t, answer.value);
    }
    if answer.Some? {
      assert Eligible(answer.value, ts);
    }
  }

  /** The cache's answer is an answer to the query if and only if every row that starts within
      the next millisecond is matched by one that has started. */
  lemma RefinesSqlExactlyWhen(rows: seq<Sub>, ts: int, answer: Option<Sub>)
    requires Aligned(ts) && IsAnswer(rows, At(ts), answer)
    ensures IsAnswer(rows, SqlAt(ts), answer) <==>
      forall s :: s in rows && StartsWithinTick(s, ts) ==> exists t :: t in rows && Eligible(t, ts) && !Outranks(s, t)
  {
    RefinesSqlByAnswer(rows, ts, answer);
    forall s | s in rows && StartsWithinTick(s, ts)
      ensures Matched(rows, ts, s) <==> answer.Some? && !Outranks(s, answer.value)
    {
      MatchedByAnswer(rows, ts, answer, s);
    }
    assert forall s :: s in rows && StartsWithinTick(s, ts) ==>
      (Matched(rows, ts, s) <==> exists t :: t in rows && Eligible(t, ts) && !Outranks(s, t));
  }

  /** A subscription that starts half a microsecond after the event: the query gives it, the
      cache gives nothing. */
  lemma StartingSubscriptionIsMissed()
    ensures exists rows, ts, s :: Aligned(ts) && IsAnswer(rows, At(ts), None) && IsAnswer(rows, SqlAt(ts), Some(s)) && !IsAnswer(rows, SqlAt(ts), None)
  {
    var s: Sub := Subscription("s", "o", "e", "p", Some(500), None);
    var rows := [s];
    assert s in rows && Aligned(0) && SqlAt(0)(s) && !At(0)(s);
    assert IsAnswer(rows, At(0), None) && IsAnswer(rows, SqlAt(0), Some(s)) && !IsAnswer(rows, SqlAt(0), None);
  }

  /** An event time off the boundary, as an RFC 3339 string can give, widens the difference:
      the cache then also admits a row that ended in the same millisecond, the query does
      not. */
  lemma UnalignedTimesDiffer()
    ensures exists s: Sub, ts :: !Aligned(ts) && Eligible(s, ts) && !SqlEligible(s, ts)
  {
    var s: Sub := Subscription("s", "o", "e", "p", Some(0), Some(600));
    EligibilityGap(s, 500);
    assert Eligible(s, 500) && !SqlEligible(s, 500);
  }

  /** The subscriptions an organization has under an external id. */
  ghost function SubscriptionsOf(store: Store, org: string, externalId: string): set<string> {
    set k | k in store && store[k].Subscription? && store[k].org == org && store[k].externalId == externalId
  }

  /** Those the search finds. */
  ghost function SubscriptionsHit(store: Store, org: string, externalId: string): set<string> {
    set k | k in store && store[k].Subscription? && store[k].org == org &&
            (store[k].externalId == externalId || externalId + ":" <= store[k].externalId)
  }

  /** The search finds exactly the subscriptions under the external id unless the
      organization has one whose external id continues it with a colon. */
  lemma HitsExactlyWhen(store: Store, org: string, externalId: string)
    ensures SubscriptionsHit(store, org, externalId) == SubscriptionsOf(store, org, externalId) <==>
      forall k :: k in store && store[k].Subscription? && store[k].org == org ==> !(externalId + ":" <= store[k].externalId)
  {
    var hit, of := SubscriptionsHit(store, org, externalId), SubscriptionsOf(store, org, externalId);
    if k :| k in store && store[k].Subscription? && store[k].org == org && externalId + ":" <= store[k].externalId {
      assert k in hit && k !in of;
    } else {
      assert forall k :: k in hit <==> k in of;
    }
  }

  lemma SubscriptionHit(e: Entity, org: string, externalId: string)
    requires IdsColonFree(e) && ColonFree(org)
    ensures Prefix(["sub", org, externalId]) <= KeyOf(e) <==>
      e.Subscription? && e.org == org && (e.externalId == externalId || externalId + ":" <= e.externalId)
  {
    if e.Subscription? {
      ExternalIdHits(org, externalId, e.org, e.externalId, e.id);
    } else {
      HeadColonFree(e);
      OtherTableMisses(["sub", org, externalId], Parts(e));
    }
  }

  ghost function HitRows(store: Store, org: string, externalId: string): (rows: seq<Sub>) {
    var rows := Rows(store, SubscriptionsHit(store, org, externalId));
    rows
  }

  /** SearchSubscriptions: an answer among the subscriptions hit, not found exactly when none
      of them is eligible. */
  method SearchSubscriptions(store: Store, org: string, externalId: string, ts: int) returns (answer: Option<Sub>)
    requires Keyed(store) && ColonFree(org)
    ensures IsAnswer(HitRows(store, org, externalId), At(ts), answer)
  {
    LeadOfThree("sub", org, externalId);
    forall k | k in store
      ensures Prefix(["sub", org, externalId]) <= k <==> k in SubscriptionsHit(store, org, externalId)
    {
      SubscriptionHit(store[k], org, externalId);
    }
    assert Matching(store, Prefix(["sub", org, externalId])) == SubscriptionsHit(store, org, externalId);
    assert "sub:" == "sub" + ":";
    var rows := Search(store, "sub:" + org + ":" + externalId + ":");
    assert rows == HitRows(store, org, externalId);
    answer := Select(rows, ts);
  }

  /** With such an external id around, an event can be given another subscription. */
  lemma ColonReachesAnotherSubscription()
    ensures exists store: Store, s: Sub :: Keyed(store) && s.externalId != "a" && IsAnswer(HitRows(store, "o", "a"), At(0), Some(s))
  {
    var s: Sub := Subscription("i", "o", "a:b", "p", Some(0), None);
    var k := KeyOf(s);
    var store: Store := map[k := s];
    assert k in SubscriptionsHit(store, "o", "a") by {
      assert "a" + ":" <= "a:b";
    }
    assert Keyed(store);
    assert forall e :: e in HitRows(store, "o", "a") <==> e == s;
    assert IsAnswer(HitRows(store, "o", "a"), At(0), Some(s));
  }
}
