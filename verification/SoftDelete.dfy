/** Snapshot plus replay for subscriptions.

    A terminated subscription stays in the cache, so that late events still find it: its
    change replaces the cached row (with a time to live) instead of removing it, and the
    snapshot contains terminated rows too.  `deleted` means terminated here.  The time to
    live is not part of this module: it speaks of the period before any entry expires. */
module SoftDelete {
  import opened Times
  import opened ChangeLog

  /** One change applied to the cache: a termination overwrites the cached row whatever the
      times are, and does nothing if the row is not cached. */
  function Apply(c: Cache, r: Row): Cache {
    if r.key == "" then
      c
    else if r.deleted then
      if r.key in c && c[r.key].id == r.id then c[r.key := Stored(r)] else c
    else if r.key in c && Millis(c[r.key].updatedAt) >= Millis(r.updatedAt) then
      c
    else
      c[r.key := Stored(r)]
  }

  function Replay(c: Cache, log: seq<Row>, m: nat, i: nat): Cache
    requires m <= i <= |log|
    decreases i
  {
    if i == m then c else Apply(Replay(c, log, m, i - 1), log[i - 1])
  }

  ghost predicate Step(s: seq<Cache>, log: seq<Row>, i: nat)
    requires |s| == |log| + 1 && i < |log|
  {
    s[i + 1] == Apply(s[i], log[i])
  }

  ghost predicate Trace(s: seq<Cache>, log: seq<Row>, m: nat) {
    && |s| == |log| + 1 && m <= |log|
    && (forall i: nat :: m <= i < |log| ==> Step(s, log, i))
  }

  lemma TraceOf(c: Cache, log: seq<Row>, m: nat) returns (s: seq<Cache>)
    requires m <= |log|
    ensures Trace(s, log, m) && s[m] == c && s[|log|] == Replay(c, log, m, |log|)
  {
    s := seq(|log| + 1, i requires 0 <= i <= |log| => if i < m then c else Replay(c, log, m, i));
    forall i: nat | m <= i < |log|
      ensures Step(s, log, i)
    {
      assert Replay(c, log, m, i + 1) == Apply(Replay(c, log, m, i), log[i]);
    }
  }

  /** The cache holds exactly the newest image of every row, terminated or not. */
  ghost predicate HoldsNewest(c: Cache, log: seq<Row>, i: nat) {
    && i <= |log|
    && (forall p {:trigger NewestAt(log, i, p)} :: NewestAt(log, i, p) ==> log[p].key in c && c[log[p].key] == Stored(log[p]))
    && (forall k :: k in c ==> exists p {:trigger NewestAt(log, i, p)} :: NewestAt(log, i, p) && log[p].key == k)
  }

  /** The same column by column. */
  ghost predicate KeepsNewest(c: Cache, log: seq<Row>, i: nat) {
    && i <= |log|
    && (forall p {:trigger NewestAt(log, i, p)} :: NewestAt(log, i, p) ==> log[p].key in c && Keeps(c[log[p].key], log[p]))
    && (forall k :: k in c ==> exists p {:trigger NewestAt(log, i, p)} :: NewestAt(log, i, p) && log[p].key == k && Keeps(c[k], log[p]))
  }

  lemma HoldsNewestKeeps(c: Cache, log: seq<Row>, i: nat)
    requires HoldsNewest(c, log, i)
    ensures KeepsNewest(c, log, i)
  {
    forall k | k in c
      ensures exists p {:trigger NewestAt(log, i, p)} :: NewestAt(log, i, p) && log[p].key == k && Keeps(c[k], log[p])
    {
      var p :| NewestAt(log, i, p) && log[p].key == k;
    }
  }

  /** The row of position j has not been terminated after that position. */
  ghost predicate Uninterrupted(log: seq<Row>, i: nat, j: int) {
    i <= |log| && 0 <= j < i && forall t :: j < t < i && log[t].id == log[j].id ==> !log[t].deleted
  }

  /** A row whose newest image is a termination has an earlier image that is not one. */
  ghost predicate SeenBeforeTermination(log: seq<Row>, p: nat)
    requires p < |log|
  {
    exists j :: 0 <= j < p && log[j].id == log[p].id && !log[j].deleted
  }

  /** A row whose newest image is not a termination carries there, on the millisecond
      clock, a later time than every earlier image since its last termination, that
      termination included, unless the two are the same once stored. */
  ghost predicate NewerThanSinceTermination(log: seq<Row>, p: nat)
    requires p < |log|
  {
    forall j {:trigger Uninterrupted(log, p, j)} :: Uninterrupted(log, p, j) && log[j].id == log[p].id ==>
      Millis(log[j].updatedAt) < Millis(log[p].updatedAt) || Stored(log[j]) == Stored(log[p])
  }

  ghost predicate TerminationRule(log: seq<Row>) {
    forall p {:trigger NewestAt(log, |log|, p)} :: NewestAt(log, |log|, p) ==>
      if log[p].deleted then SeenBeforeTermination(log, p) else NewerThanSinceTermination(log, p)
  }

  ghost predicate AlwaysConverges(log: seq<Row>) {
    forall c, m: nat, n: nat {:trigger HoldsNewest(c, log, n), Replay(c, log, m, |log|)} |
      m <= n <= |log| && HoldsNewest(c, log, n) :: HoldsNewest(Replay(c, log, m, |log|), log, |log|)
  }

  /** Entry k is an image of a row not terminated after it. */
  ghost predicate FromLog(c: Cache, log: seq<Row>, i: nat, k: string)
    requires k in c
  {
    exists j :: Uninterrupted(log, i, j) && log[j].key == k && c[k] == Stored(log[j])
  }

  ghost predicate Explained(c0: Cache, c: Cache, log: seq<Row>, n: nat, i: nat) {
    forall k :: k in c ==> FromLog(c, log, i, k) || (i < n && k in c0 && c[k] == c0[k])
  }

  lemma NewestIsFromLog(c: Cache, log: seq<Row>, n: nat, k: string)
    requires HoldsNewest(c, log, n) && k in c
    ensures FromLog(c, log, n, k)
  {
    var p :| NewestAt(log, n, p) && log[p].key == k;
    assert Uninterrupted(log, n, p);
  }

  lemma SnapshotExplained(c: Cache, log: seq<Row>, m: nat, n: nat)
    requires m <= n && HoldsNewest(c, log, n)
    ensures Explained(c, c, log, n, m)
  {
    forall k | k in c
      ensures FromLog(c, log, m, k) || m < n
    {
      if m == n {
        NewestIsFromLog(c, log, n, k);
      }
    }
  }

  lemma StepFromLog(c: Cache, log: seq<Row>, i: nat, k: string)
    requires i < |log| && KeyContainsId(log) && k in Apply(c, log[i])
    requires k in c && Apply(c, log[i])[k] == c[k] ==> FromLog(c, log, i, k)
    ensures FromLog(Apply(c, log[i]), log, i + 1, k)
  {
    var d := Apply(c, log[i]);
    if k in c && d[k] == c[k] {
      var j :| Uninterrupted(log, i, j) && log[j].key == k && c[k] == Stored(log[j]);
      assert Uninterrupted(log, i + 1, if log[i].deleted && log[i].id == log[j].id then i else j);
    } else {
      assert Uninterrupted(log, i + 1, i);
    }
  }

  lemma StepExplained(c0: Cache, c: Cache, log: seq<Row>, n: nat, i: nat)
    requires i < |log| && n <= |log| && KeyContainsId(log) && HoldsNewest(c0, log, n)
    requires Explained(c0, c, log, n, i)
    ensures Explained(c0, Apply(c, log[i]), log, n, i + 1)
  {
    var d := Apply(c, log[i]);
    forall k | k in d
      ensures FromLog(d, log, i + 1, k) || (i + 1 < n && k in c0 && d[k] == c0[k])
    {
      if k in c && d[k] == c[k] && !FromLog(c, log, i, k) {
        if i + 1 == n {
          NewestIsFromLog(c0, log, n, k);
        }
      } else {
        StepFromLog(c, log, i, k);
      }
    }
  }

  lemma {:induction false} ReplayExplained(s: seq<Cache>, log: seq<Row>, m: nat, n: nat, i: nat)
    requires Trace(s, log, m) && m <= n <= |log| && m <= i <= |log| && KeyContainsId(log) && HoldsNewest(s[m], log, n)
    ensures Explained(s[m], s[i], log, n, i)
    decreases i
  {
    if i == m {
      SnapshotExplained(s[m], log, m, n);
    } else {
      ReplayExplained(s, log, m, n, i - 1);
      assert Step(s, log, i - 1);
      StepExplained(s[m], s[i - 1], log, n, i - 1);
    }
  }

  /** An entry is an image of the only row that owns its key. */
  lemma EntryHasItsRow(s: seq<Cache>, log: seq<Row>, m: nat, n: nat, i: nat, p: nat)
    requires Trace(s, log, m) && m <= n <= |log| && m <= i <= |log| && KeyContainsId(log) && HoldsNewest(s[m], log, n)
    requires p < |log| && log[p].key in s[i]
    ensures s[i][log[p].key].id == log[p].id
  {
    var k := log[p].key;
    ReplayExplained(s, log, m, n, i);
    if FromLog(s[i], log, i, k) {
      var j :| Uninterrupted(log, i, j) && log[j].key == k && s[i][k] == Stored(log[j]);
    } else {
      NewestIsFromLog(s[m], log, n, k);
    }
  }

  /** No entry ever leaves. */
  lemma {:induction false} EntryStays(s: seq<Cache>, log: seq<Row>, m: nat, i: nat, i': nat, k: string)
    requires Trace(s, log, m) && m <= i <= i' <= |log| && k in s[i]
    ensures k in s[i']
    decreases i'
  {
    if i < i' {
      EntryStays(s, log, m, i, i' - 1, k);
      assert Step(s, log, i' - 1);
    }
  }

  /** After the newest image of its row, an entry does not change. */
  lemma {:induction false} EntrySettles(s: seq<Cache>, log: seq<Row>, m: nat, p: nat, i: nat, i': nat)
    requires Trace(s, log, m) && KeyContainsId(log) && NewestAt(log, |log|, p) && m <= i <= i' <= |log| && p < i
    ensures log[p].key in s[i'] <==> log[p].key in s[i]
    ensures log[p].key in s[i] ==> s[i'][log[p].key] == s[i][log[p].key]
    decreases i'
  {
    if i < i' {
      EntrySettles(s, log, m, p, i, i' - 1);
      assert Step(s, log, i' - 1);
    }
  }

  /** A row that was once seen unterminated is cached by the time its termination comes. */
  lemma CachedBeforeTermination(s: seq<Cache>, log: seq<Row>, m: nat, n: nat, p: nat, j: nat)
    requires Trace(s, log, m) && KeyContainsId(log) && m <= n <= |log| && HoldsNewest(s[m], log, n)
    requires j < p < |log| && m <= p && log[j].id == log[p].id && !log[j].deleted
    ensures log[p].key in s[p]
  {
    if m <= j {
      assert Step(s, log, j);
      EntryStays(s, log, m, j + 1, p, log[p].key);
    } else {
      var q := HasNewest(log, n, j);
      EntryStays(s, log, m, m, p, log[p].key);
    }
  }

  lemma NewestImageLands(s: seq<Cache>, log: seq<Row>, m: nat, n: nat, p: nat)
    requires Trace(s, log, m) && KeyContainsId(log) && TerminationRule(log)
    requires m <= n <= |log| && HoldsNewest(s[m], log, n) && m <= p && NewestAt(log, |log|, p)
    ensures log[p].key in s[p + 1] && s[p + 1][log[p].key] == Stored(log[p])
  {
    var k, c := log[p].key, s[p];
    assert Step(s, log, p);
    if log[p].deleted {
      var j :| 0 <= j < p && log[j].id == log[p].id && !log[j].deleted;
      CachedBeforeTermination(s, log, m, n, p, j);
      EntryHasItsRow(s, log, m, n, p, p);
    } else if k in c {
      ReplayExplained(s, log, m, n, p);
      if FromLog(c, log, p, k) {
        var j :| Uninterrupted(log, p, j) && log[j].key == k && c[k] == Stored(log[j]);
        assert log[j].id == log[p].id;
      } else {
        assert NewestAt(log, n, p);
      }
    }
  }

  lemma RowLands(s: seq<Cache>, log: seq<Row>, m: nat, n: nat, p: nat)
    requires Trace(s, log, m) && KeyContainsId(log) && TerminationRule(log)
    requires m <= n <= |log| && HoldsNewest(s[m], log, n) && NewestAt(log, |log|, p)
    ensures log[p].key in s[|log|] && s[|log|][log[p].key] == Stored(log[p])
  {
    if m <= p {
      NewestImageLands(s, log, m, n, p);
      EntrySettles(s, log, m, p, p + 1, |log|);
    } else {
      assert NewestAt(log, n, p);
      EntrySettles(s, log, m, p, m, |log|);
    }
  }

  lemma SnapshotThenReplay(s: seq<Cache>, log: seq<Row>, m: nat, n: nat)
    requires Trace(s, log, m) && KeyContainsId(log) && TerminationRule(log)
    requires m <= n <= |log| && HoldsNewest(s[m], log, n)
    ensures HoldsNewest(s[|log|], log, |log|)
  {
    var c := s[|log|];
    forall p | NewestAt(log, |log|, p)
      ensures log[p].key in c && c[log[p].key] == Stored(log[p])
    {
      RowLands(s, log, m, n, p);
    }
    ReplayExplained(s, log, m, n, |log|);
    forall k | k in c
      ensures exists p {:trigger NewestAt(log, |log|, p)} :: NewestAt(log, |log|, p) && log[p].key == k
    {
      var j :| Uninterrupted(log, |log|, j) && log[j].key == k && c[k] == Stored(log[j]);
      var p := HasNewest(log, |log|, j);
    }
  }

  lemma SnapshotExists(log: seq<Row>, n: nat) returns (c: Cache)
    requires KeyContainsId(log) && n <= |log|
    ensures HoldsNewest(c, log, n)
  {
    var newest := set p | 0 <= p < n && NewestAt(log, n, p);
    var keys := set p | p in newest :: log[p].key;
    c := map k | k in keys :: (var p :| p in newest && log[p].key == k; Stored(log[p]));
    forall p | NewestAt(log, n, p)
      ensures log[p].key in c && c[log[p].key] == Stored(log[p])
    {
      assert p in newest;
      assert log[p].key in keys;
    }
  }

  /** A row first seen terminated never enters a cache that starts before it. */
  lemma {:induction false} UnseenRowStaysOut(s: seq<Cache>, log: seq<Row>, p: nat, i: nat)
    requires Trace(s, log, 0) && KeyContainsId(log) && NewestAt(log, |log|, p) && i <= |log| && s[0] == map[]
    requires log[p].deleted && !SeenBeforeTermination(log, p)
    ensures log[p].key !in s[i]
    decreases i
  {
    if i > 0 {
      UnseenRowStaysOut(s, log, p, i - 1);
      assert Step(s, log, i - 1);
      assert log[i - 1].key == log[p].key ==> i - 1 <= p;
    }
  }

  /** A cached image at least as recent as the last write keeps that write out. */
  lemma {:induction false} StaleImageStays(s: seq<Cache>, log: seq<Row>, j: nat, p: nat, i: nat)
    requires KeyContainsId(log) && Uninterrupted(log, p, j) && Trace(s, log, j + 1) && j < i <= p
    requires HoldsNewest(s[j + 1], log, j + 1)
    ensures var k := log[j].key;
      && k in s[i] && s[i][k].id == log[j].id
      && (s[i][k] == Stored(log[j]) || Millis(s[i][k].updatedAt) > Millis(log[j].updatedAt))
    decreases i
  {
    if i == j + 1 {
      assert NewestAt(log, j + 1, j);
    } else {
      StaleImageStays(s, log, j, p, i - 1);
      assert Step(s, log, i - 1);
    }
  }

  lemma StaleImageSurvives(s: seq<Cache>, log: seq<Row>, p: nat, j: nat)
    requires KeyContainsId(log) && NewestAt(log, |log|, p) && !log[p].deleted
    requires Uninterrupted(log, p, j) && log[j].id == log[p].id
    requires Millis(log[j].updatedAt) >= Millis(log[p].updatedAt) && Stored(log[j]) != Stored(log[p])
    requires Trace(s, log, j + 1) && HoldsNewest(s[j + 1], log, j + 1)
    ensures log[p].key in s[|log|] && s[|log|][log[p].key] != Stored(log[p])
    ensures !HoldsNewest(s[|log|], log, |log|)
  {
    var k := log[p].key;
    StaleImageStays(s, log, j, p, p);
    assert s[p + 1] == s[p] by {
      assert Step(s, log, p);
    }
    EntrySettles(s, log, j + 1, p, p + 1, |log|);
    assert s[|log|][k] != Stored(log[p]);
  }

  lemma BrokenRuleDiverges(log: seq<Row>, p: nat)
    requires KeyContainsId(log) && NewestAt(log, |log|, p)
    requires if log[p].deleted then !SeenBeforeTermination(log, p) else !NewerThanSinceTermination(log, p)
    ensures !AlwaysConverges(log)
  {
    if log[p].deleted {
      var c := SnapshotExists(log, 0);
      assert c == map[];
      var s := TraceOf(c, log, 0);
      UnseenRowStaysOut(s, log, p, |log|);
    } else {
      var j :| Uninterrupted(log, p, j) && log[j].id == log[p].id &&
               !(Millis(log[j].updatedAt) < Millis(log[p].updatedAt) || Stored(log[j]) == Stored(log[p]));
      var c := SnapshotExists(log, j + 1);
      var s := TraceOf(c, log, j + 1);
      StaleImageSurvives(s, log, p, j);
    }
  }

  lemma RuleConverges(log: seq<Row>)
    requires KeyContainsId(log) && TerminationRule(log)
    ensures AlwaysConverges(log)
  {
    forall c, m: nat, n: nat {:trigger HoldsNewest(c, log, n), Replay(c, log, m, |log|)} |
      m <= n <= |log| && HoldsNewest(c, log, n)
      ensures HoldsNewest(Replay(c, log, m, |log|), log, |log|)
    {
      var s := TraceOf(c, log, m);
      SnapshotThenReplay(s, log, m, n);
    }
  }

  /** The subscription cache always converges exactly for the logs that obey the
      termination rule. */
  lemma ConvergesExactlyWhen(log: seq<Row>)
    requires KeyContainsId(log)
    ensures AlwaysConverges(log) <==> TerminationRule(log)
  {
    if TerminationRule(log) {
      RuleConverges(log);
    } else {
      var p :| NewestAt(log, |log|, p) &&
               if log[p].deleted then !SeenBeforeTermination(log, p) else !NewerThanSinceTermination(log, p);
      BrokenRuleDiverges(log, p);
    }
  }

  /** One change, a termination of a row never seen before: it is not cached. */
  lemma FirstSeenTerminatedIsLost()
    ensures exists log :: KeyContainsId(log) && !AlwaysConverges(log)
  {
    var log := [Row("a", "k", 0, true, "x")];
    assert KeyContainsId(log);
    assert NewestAt(log, |log|, 0) && !SeenBeforeTermination(log, 0);
    BrokenRuleDiverges(log, 0);
  }
}
