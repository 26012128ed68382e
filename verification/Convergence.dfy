/** Snapshot plus replay, for the five tables whose deleted rows leave the cache.

    At start-up the cache is loaded from the database as of some position n, and then the
    change log is replayed from an older position m, because the consumer group is new and
    no start offset is set.  The replay therefore meets changes the snapshot already
    contains.  The main theorem says exactly when this ends with the live rows of the whole
    log. */
module Convergence {
  import opened Times
  import opened ChangeLog

  /** One change applied to the cache. */
  function Apply(c: Cache, r: Row): Cache {
    if r.key == "" then
      c
    else if r.deleted then
      if r.key in c && c[r.key].id == r.id then c - {r.key} else c
    else if r.key in c && Millis(c[r.key].updatedAt) >= Millis(r.updatedAt) then
      c
    else
      c[r.key := Stored(r)]
  }

  /** The cache after changes m, ..., i-1. */
  function Replay(c: Cache, log: seq<Row>, m: nat, i: nat): Cache
    requires m <= i <= |log|
    decreases i
  {
    if i == m then c else Apply(Replay(c, log, m, i - 1), log[i - 1])
  }

  /** The states of such a replay, by position. */
  ghost predicate Step(s: seq<Cache>, log: seq<Row>, i: nat)
    requires |s| == |log| + 1 && i < |log|
  {
    s[i + 1] == Apply(s[i], log[i])
  }

  ghost predicate Trace(s: seq<Cache>, log: seq<Row>, m: nat) {
    && |s| == |log| + 1 && m <= |log|
    && (forall i: nat :: m <= i < |log| ==> Step(s, log, i))
  }

  lemma TraceOf(c: Cache, log: seq<Row>, m: nat) returns (s: seq<Cache>)
    requires m <= |log|
    ensures Trace(s, log, m) && s[m] == c && s[|log|] == Replay(c, log, m, |log|)
  {
    s := seq(|log| + 1, i requires 0 <= i <= |log| => if i < m then c else Replay(c, log, m, i));
    forall i: nat | m <= i < |log|
      ensures Step(s, log, i)
    {
      assert Replay(c, log, m, i + 1) == Apply(Replay(c, log, m, i), log[i]);
    }
  }

  /** The cache holds exactly the live rows as of position i. */
  ghost predicate HoldsLive(c: Cache, log: seq<Row>, i: nat) {
    && i <= |log|
    && (forall p {:trigger LiveAt(log, i, p)} :: LiveAt(log, i, p) ==> log[p].key in c && c[log[p].key] == Stored(log[p]))
    && (forall k :: k in c ==> exists p {:trigger LiveAt(log, i, p)} :: LiveAt(log, i, p) && log[p].key == k)
  }

  /** The entries and the live rows, column by column: every live row is kept, and every entry
      keeps one. */
  ghost predicate KeepsLive(c: Cache, log: seq<Row>, i: nat) {
    && i <= |log|
    && (forall p {:trigger LiveAt(log, i, p)} :: LiveAt(log, i, p) ==> log[p].key in c && Keeps(c[log[p].key], log[p]))
    && (forall k :: k in c ==> exists p {:trigger LiveAt(log, i, p)} :: LiveAt(log, i, p) && log[p].key == k && Keeps(c[k], log[p]))
  }

  lemma HoldsLiveKeeps(c: Cache, log: seq<Row>, i: nat)
    requires HoldsLive(c, log, i)
    ensures KeepsLive(c, log, i)
  {
    forall k | k in c
      ensures exists p {:trigger LiveAt(log, i, p)} :: LiveAt(log, i, p) && log[p].key == k && Keeps(c[k], log[p])
    {
      var p :| LiveAt(log, i, p) && log[p].key == k;
    }
  }

  lemma HoldsLiveIsUnique(c: Cache, d: Cache, log: seq<Row>, i: nat)
    requires HoldsLive(c, log, i) && HoldsLive(d, log, i)
    ensures c == d
  {
    forall k | k in c || k in d
      ensures k in c && k in d && c[k] == d[k]
    {
      var p :| LiveAt(log, i, p) && log[p].key == k;
    }
  }

  /** Position j holds an image of a row that has not been deleted since. */
  ghost predicate AliveSince(log: seq<Row>, i: nat, j: int) {
    && i <= |log| && 0 <= j < i && !log[j].deleted
    && forall t :: j < t < i && log[t].id == log[j].id ==> !log[t].deleted
  }

  lemma AliveExtends(log: seq<Row>, i: nat, j: int)
    requires i < |log| && AliveSince(log, i, j) && (log[i].id == log[j].id ==> !log[i].deleted)
    ensures AliveSince(log, i + 1, j)
  {
  }

  lemma AliveIsLive(log: seq<Row>, i: nat, j: nat) returns (p: nat)
    requires AliveSince(log, i, j)
    ensures LiveAt(log, i, p) && log[p].id == log[j].id
  {
    p := HasNewest(log, i, j);
  }

  /** The newest image of every row live at the end carries, on the millisecond clock, a
      later time than every earlier image of it since its last deletion, unless the two
      are the same once stored. */
  ghost predicate LastWriteIsNewest(log: seq<Row>) {
    forall p, j {:trigger LiveAt(log, |log|, p), AliveSince(log, p, j)} :: LiveAt(log, |log|, p) && AliveSince(log, p, j) && log[j].id == log[p].id ==>
      Millis(log[j].updatedAt) < Millis(log[p].updatedAt) || Stored(log[j]) == Stored(log[p])
  }

  /** Snapshot at any n and replay from any m <= n give the live rows of the whole log. */
  ghost predicate AlwaysConverges(log: seq<Row>) {
    forall c, m: nat, n: nat {:trigger HoldsLive(c, log, n), Replay(c, log, m, |log|)} | m <= n <= |log| && HoldsLive(c, log, n) ::
      HoldsLive(Replay(c, log, m, |log|), log, |log|)
  }

  /** Entry k is an image of a row that has not been deleted since. */
  ghost predicate FromLog(c: Cache, log: seq<Row>, i: nat, k: string)
    requires k in c
  {
    exists j {:trigger AliveSince(log, i, j)} :: AliveSince(log, i, j) && log[j].key == k && c[k] == Stored(log[j])
  }

  /** Every entry of the replayed cache comes from the log that way, or it is still the
      snapshot's entry and the snapshot lies ahead of the replay. */
  ghost predicate Explained(c0: Cache, c: Cache, log: seq<Row>, n: nat, i: nat) {
    forall k :: k in c ==> FromLog(c, log, i, k) || (i < n && k in c0 && c[k] == c0[k])
  }

  lemma LiveIsFromLog(c: Cache, log: seq<Row>, n: nat, k: string)
    requires HoldsLive(c, log, n) && k in c
    ensures FromLog(c, log, n, k)
  {
    var p :| LiveAt(log, n, p) && log[p].key == k;
    assert AliveSince(log, n, p);
  }

  lemma SnapshotExplained(c: Cache, log: seq<Row>, m: nat, n: nat)
    requires m <= n && HoldsLive(c, log, n)
    ensures Explained(c, c, log, n, m)
  {
    forall k | k in c
      ensures FromLog(c, log, m, k) || m < n
    {
      if m == n {
        LiveIsFromLog(c, log, n, k);
      }
    }
  }

  lemma StepFromLog(c: Cache, log: seq<Row>, i: nat, k: string)
    requires i < |log| && KeysStable(log) && k in Apply(c, log[i])
    requires k in c && Apply(c, log[i])[k] == c[k] ==> FromLog(c, log, i, k)
    ensures FromLog(Apply(c, log[i]), log, i + 1, k)
  {
    var d := Apply(c, log[i]);
    if k in c && d[k] == c[k] {
      var j :| AliveSince(log, i, j) && log[j].key == k && c[k] == Stored(log[j]);
      AliveExtends(log, i, j);
    } else {
      assert AliveSince(log, i + 1, i);
    }
  }

  lemma StepExplained(c0: Cache, c: Cache, log: seq<Row>, n: nat, i: nat)
    requires i < |log| && n <= |log| && KeysStable(log) && HoldsLive(c0, log, n)
    requires Explained(c0, c, log, n, i)
    ensures Explained(c0, Apply(c, log[i]), log, n, i + 1)
  {
    var d := Apply(c, log[i]);
    forall k | k in d
      ensures FromLog(d, log, i + 1, k) || (i + 1 < n && k in c0 && d[k] == c0[k])
    {
      if k in c && d[k] == c[k] && !FromLog(c, log, i, k) {
        if i + 1 == n {
          LiveIsFromLog(c0, log, n, k);
        }
      } else {
        StepFromLog(c, log, i, k);
      }
    }
  }

  lemma {:induction false} ReplayExplained(s: seq<Cache>, log: seq<Row>, m: nat, n: nat, i: nat)
    requires Trace(s, log, m) && m <= n <= |log| && m <= i <= |log| && KeysStable(log) && HoldsLive(s[m], log, n)
    ensures Explained(s[m], s[i], log, n, i)
    decreases i
  {
    if i == m {
      SnapshotExplained(s[m], log, m, n);
    } else {
      ReplayExplained(s, log, m, n, i - 1);
      assert Step(s, log, i - 1);
      StepExplained(s[m], s[i - 1], log, n, i - 1);
    }
  }

  /** While a row is live, no image of another row takes its key. */
  lemma NoIntruder(log: seq<Row>, i: nat, j: nat)
    requires KeysStable(log) && OneLiveRowPerKey(log)
    requires i < |log| && AliveSince(log, i, j) && log[i].key == log[j].key && log[i].id != log[j].id
    ensures log[i].deleted
  {
    var p := HasNewest(log, i + 1, j);
    assert LiveAt(log, i + 1, p);
    assert LiveAt(log, i + 1, i) ==> p == i;
  }

  /** A change keeps the entry of a key unless it is about that key's row. */
  lemma EntryKept(c: Cache, r: Row, k: string)
    requires k in c && (r.key == k ==> r.deleted && r.id != c[k].id)
    ensures k in Apply(c, r) && Apply(c, r)[k] == c[k]
  {
  }

  /** Once the newest image of a row has been met, its key keeps whatever entry it has for
      that row. */
  lemma {:induction false} EntrySettles(s: seq<Cache>, log: seq<Row>, m: nat, p: nat, i: nat, i': nat)
    requires Trace(s, log, m) && KeysStable(log) && OneLiveRowPerKey(log) && LiveAt(log, |log|, p)
    requires m <= i <= i' <= |log| && p < i && log[p].key in s[i] && s[i][log[p].key].id == log[p].id
    ensures log[p].key in s[i'] && s[i'][log[p].key] == s[i][log[p].key]
    decreases i'
  {
    if i < i' {
      EntrySettles(s, log, m, p, i, i' - 1);
      if log[i' - 1].key == log[p].key {
        NoIntruder(log, i' - 1, p);
      }
      assert Step(s, log, i' - 1);
      EntryKept(s[i' - 1], log[i' - 1], log[p].key);
    }
  }

  /** Meeting the newest image of a row puts it in the cache. */
  lemma NewestImageLands(s: seq<Cache>, log: seq<Row>, m: nat, n: nat, p: nat)
    requires Trace(s, log, m) && KeysStable(log) && OneLiveRowPerKey(log) && LastWriteIsNewest(log)
    requires m <= n <= |log| && HoldsLive(s[m], log, n) && m <= p && LiveAt(log, |log|, p)
    ensures log[p].key in s[p + 1] && s[p + 1][log[p].key] == Stored(log[p])
  {
    var k, c := log[p].key, s[p];
    assert Step(s, log, p);
    if k in c {
      ReplayExplained(s, log, m, n, p);
      if j :| AliveSince(log, p, j) && log[j].key == k && c[k] == Stored(log[j]) {
        if log[j].id != log[p].id {
          NoIntruder(log, p, j);
        }
      } else {
        assert LiveAt(log, n, p);
      }
    }
  }

  lemma LiveRowLands(s: seq<Cache>, log: seq<Row>, m: nat, n: nat, p: nat)
    requires Trace(s, log, m) && KeysStable(log) && OneLiveRowPerKey(log) && LastWriteIsNewest(log)
    requires m <= n <= |log| && HoldsLive(s[m], log, n) && LiveAt(log, |log|, p)
    ensures log[p].key in s[|log|] && s[|log|][log[p].key] == Stored(log[p])
  {
    if m <= p {
      NewestImageLands(s, log, m, n, p);
      EntrySettles(s, log, m, p, p + 1, |log|);
    } else {
      assert LiveAt(log, n, p);
      EntrySettles(s, log, m, p, m, |log|);
    }
  }

  /** One direction: if every last write is the newest, the cache converges. */
  lemma SnapshotThenReplay(s: seq<Cache>, log: seq<Row>, m: nat, n: nat)
    requires Trace(s, log, m) && KeysStable(log) && OneLiveRowPerKey(log) && LastWriteIsNewest(log)
    requires m <= n <= |log| && HoldsLive(s[m], log, n)
    ensures HoldsLive(s[|log|], log, |log|)
  {
    var c := s[|log|];
    forall p | LiveAt(log, |log|, p)
      ensures log[p].key in c && c[log[p].key] == Stored(log[p])
    {
      LiveRowLands(s, log, m, n, p);
    }
    ReplayExplained(s, log, m, n, |log|);
    forall k | k in c
      ensures exists p {:trigger LiveAt(log, |log|, p)} :: LiveAt(log, |log|, p) && log[p].key == k
    {
      var j :| AliveSince(log, |log|, j) && log[j].key == k && c[k] == Stored(log[j]);
      var p := AliveIsLive(log, |log|, j);
    }
  }

  /** The live rows as of position n do form a cache. */
  lemma SnapshotExists(log: seq<Row>, n: nat) returns (c: Cache)
    requires KeysStable(log) && OneLiveRowPerKey(log) && n <= |log|
    ensures HoldsLive(c, log, n)
  {
    var live := set p | 0 <= p < n && LiveAt(log, n, p);
    var keys := set p | p in live :: log[p].key;
    c := map k | k in keys :: (var p :| p in live && log[p].key == k; Stored(log[p]));
    forall p | LiveAt(log, n, p)
      ensures log[p].key in c && c[log[p].key] == Stored(log[p])
    {
      assert p in live;
      assert log[p].key in keys;
    }
  }

  /** A cached image at least as recent as the last write keeps that write out. */
  lemma {:induction false} StaleImageStays(s: seq<Cache>, log: seq<Row>, j: nat, p: nat, i: nat)
    requires KeysStable(log) && OneLiveRowPerKey(log)
    requires AliveSince(log, p, j) && Trace(s, log, j + 1) && j < i <= p && HoldsLive(s[j + 1], log, j + 1)
    ensures var k := log[j].key;
      && k in s[i] && s[i][k].id == log[j].id
      && (s[i][k] == Stored(log[j]) || Millis(s[i][k].updatedAt) > Millis(log[j].updatedAt))
    decreases i
  {
    if i == j + 1 {
      assert LiveAt(log, j + 1, j);
    } else {
      StaleImageStays(s, log, j, p, i - 1);
      assert Step(s, log, i - 1);
      if log[i - 1].key == log[j].key && log[i - 1].id != log[j].id {
        assert AliveSince(log, i - 1, j);
        NoIntruder(log, i - 1, j);
      }
    }
  }

  /** The other direction: a log that breaks the rule has a snapshot and a replay position
      that leave a stale row behind. */
  lemma StaleImageSurvives(s: seq<Cache>, log: seq<Row>, p: nat, j: nat)
    requires KeysStable(log) && OneLiveRowPerKey(log)
    requires LiveAt(log, |log|, p) && AliveSince(log, p, j) && log[j].id == log[p].id
    requires Millis(log[j].updatedAt) >= Millis(log[p].updatedAt) && Stored(log[j]) != Stored(log[p])
    requires Trace(s, log, j + 1) && HoldsLive(s[j + 1], log, j + 1)
    ensures !HoldsLive(s[|log|], log, |log|)
  {
    StaleImageStays(s, log, j, p, p);
    assert Step(s, log, p);
    EntrySettles(s, log, j + 1, p, p + 1, |log|);
  }

  lemma RuleConverges(log: seq<Row>)
    requires KeysStable(log) && OneLiveRowPerKey(log) && LastWriteIsNewest(log)
    ensures AlwaysConverges(log)
  {
    forall c, m: nat, n: nat {:trigger HoldsLive(c, log, n), Replay(c, log, m, |log|)} | m <= n <= |log| && HoldsLive(c, log, n)
      ensures HoldsLive(Replay(c, log, m, |log|), log, |log|)
    {
      var s := TraceOf(c, log, m);
      SnapshotThenReplay(s, log, m, n);
    }
  }

  lemma StaleReplay(log: seq<Row>, p: nat, j: nat) returns (c: Cache)
    requires KeysStable(log) && OneLiveRowPerKey(log)
    requires LiveAt(log, |log|, p) && AliveSince(log, p, j) && log[j].id == log[p].id
    requires Millis(log[j].updatedAt) >= Millis(log[p].updatedAt) && Stored(log[j]) != Stored(log[p])
    ensures j < |log| && HoldsLive(c, log, j + 1) && !HoldsLive(Replay(c, log, j + 1, |log|), log, |log|)
  {
    c := SnapshotExists(log, j + 1);
    var s := TraceOf(c, log, j + 1);
    StaleImageSurvives(s, log, p, j);
  }

  lemma OneReplayIsEnough(c: Cache, log: seq<Row>, m: nat)
    requires m <= |log| && HoldsLive(c, log, m) && !HoldsLive(Replay(c, log, m, |log|), log, |log|)
    ensures !AlwaysConverges(log)
  {
  }

  lemma BrokenRuleDiverges(log: seq<Row>, p: nat, j: nat)
    requires KeysStable(log) && OneLiveRowPerKey(log)
    requires LiveAt(log, |log|, p) && AliveSince(log, p, j) && log[j].id == log[p].id
    requires Millis(log[j].updatedAt) >= Millis(log[p].updatedAt) && Stored(log[j]) != Stored(log[p])
    ensures !AlwaysConverges(log)
  {
    var c := StaleReplay(log, p, j);
    OneReplayIsEnough(c, log, j + 1);
  }

  /** Snapshot plus replay always converges exactly for the logs in which every last write
      is the newest. */
  lemma ConvergesExactlyWhen(log: seq<Row>)
    requires KeysStable(log) && OneLiveRowPerKey(log)
    ensures AlwaysConverges(log) <==> LastWriteIsNewest(log)
  {
    if LastWriteIsNewest(log) {
      RuleConverges(log);
    } else {
      var p, j :| LiveAt(log, |log|, p) && AliveSince(log, p, j) && log[j].id == log[p].id &&
                  !(Millis(log[j].updatedAt) < Millis(log[p].updatedAt) || Stored(log[j]) == Stored(log[p]));
      BrokenRuleDiverges(log, p, j);
    }
  }

  /** Two updates of a row within one millisecond: the second can be lost. */
  lemma SameMillisecondUpdateIsLost()
    ensures exists log :: KeysStable(log) && OneLiveRowPerKey(log) && !AlwaysConverges(log)
  {
    var log := [Row("a", "k", 0, false, "x"), Row("a", "k", 1000, false, "y")];
    assert KeyContainsId(log);
    KeyContainsIdGivesOneLiveRow(log);
    assert LiveAt(log, |log|, 1) && AliveSince(log, 1, 0);
    assert Stored(log[0]) != Stored(log[1]);
    BrokenRuleDiverges(log, 1, 0);
  }

  /** The two standing hypotheses are needed: a row that changes key leaves its old entry
      behind, and two live rows on one key leave no cache that holds both. */
  lemma KeyChangeLeavesStaleEntry()
    ensures exists log :: OneLiveRowPerKey(log) && LastWriteIsNewest(log) && !AlwaysConverges(log)
  {
    var log := [Row("a", "k1", 0, false, ""), Row("a", "k2", 1_000_000, false, "")];
    var c: Cache := map[];
    assert HoldsLive(c, log, 0);
    var d := Replay(c, log, 0, 2);
    assert Replay(c, log, 0, 1) == map["k1" := Stored(log[0])];
    assert "k1" in d;
    assert !LiveAt(log, 2, 0);
    assert !HoldsLive(d, log, 2);
    assert LastWriteIsNewest(log);
    assert !AlwaysConverges(log);
  }

  lemma TwoLiveRowsOnOneKeyCollide(log: seq<Row>, p: nat, q: nat)
    requires LiveAt(log, |log|, p) && LiveAt(log, |log|, q) && log[p].key == log[q].key && log[p].id != log[q].id
    ensures !AlwaysConverges(log)
  {
    assert HoldsLive(map[], log, 0);
    assert !HoldsLive(Replay(map[], log, 0, |log|), log, |log|);
  }

  /** Applying a change twice is applying it once. */
  lemma ApplyIdempotent(c: Cache, r: Row)
    ensures Apply(Apply(c, r), r) == Apply(c, r)
  {
  }

  /** A change touches no key but its own, and a deletion takes away no row but its own. */
  lemma ApplyIsLocal(c: Cache, r: Row, k: string)
    requires k in c && (r.deleted ==> c[k].id != r.id)
    ensures k in Apply(c, r)
    ensures Apply(c, r)[k] == c[k] || (k == r.key && Apply(c, r)[k] == Stored(r))
  {
  }

  /** Between two positions without a deletion on its key, an entry stays and its
      millisecond time never goes back. */
  lemma {:induction false} EntriesOnlyFreshen(s: seq<Cache>, log: seq<Row>, m: nat, i: nat, i': nat, k: string)
    requires Trace(s, log, m) && m <= i <= i' <= |log| && k in s[i]
    requires forall t :: i <= t < i' && log[t].key == k ==> !log[t].deleted
    ensures k in s[i'] && Millis(s[i][k].updatedAt) <= Millis(s[i'][k].updatedAt)
    decreases i'
  {
    if i < i' {
      EntriesOnlyFreshen(s, log, m, i, i' - 1, k);
      assert Step(s, log, i' - 1);
    }
  }
}
