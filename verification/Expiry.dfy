/** The subscription cache once entries may expire.

    A terminated row is written with a time to live, after which its entry is gone.  When that
    happens depends on clocks, so here any entries of terminated rows may go at any point of
    the replay.  What is left of the guarantee is what enrichment relies on: every row that is
    not terminated is served by its newest image, and nothing stale is served at all. */
module Expiry {
  import opened Times
  import opened ChangeLog
  import SoftDelete

  /** d is c after some entries of terminated rows have expired. */
  ghost predicate Expires(c: Cache, d: Cache) {
    && (forall k :: k in d ==> k in c && d[k] == c[k])
    && (forall k :: k in c && !c[k].deleted ==> k in d)
  }

  /** Before change i expiry takes s[i] to d[i], and the change is applied to that. */
  ghost predicate Step(s: seq<Cache>, d: seq<Cache>, log: seq<Row>, i: nat)
    requires |s| == |d| == |log| + 1 && i < |log|
  {
    s[i + 1] == SoftDelete.Apply(d[i], log[i])
  }

  /** The states of a replay from position m: s before and d after expiry.  It ends in
      d[|log|]. */
  ghost predicate Trace(s: seq<Cache>, d: seq<Cache>, log: seq<Row>, m: nat) {
    && |s| == |d| == |log| + 1 && m <= |log|
    && (forall i: nat :: m <= i < |log| ==> Step(s, d, log, i))
    && (forall i: nat :: m <= i <= |log| ==> Expires(s[i], d[i]))
  }

  /** Every row that is not terminated is there with its newest image, and every entry is the
      newest image of its row. */
  ghost predicate ServesNewest(c: Cache, log: seq<Row>, i: nat) {
    && i <= |log|
    && (forall p {:trigger NewestAt(log, i, p)} :: NewestAt(log, i, p) && !log[p].deleted ==> log[p].key in c && c[log[p].key] == Stored(log[p]))
    && (forall k :: k in c ==> exists p {:trigger NewestAt(log, i, p)} :: NewestAt(log, i, p) && log[p].key == k && c[k] == Stored(log[p]))
  }

  /** The same column by column. */
  ghost predicate KeepsServed(c: Cache, log: seq<Row>, i: nat) {
    && i <= |log|
    && (forall p {:trigger NewestAt(log, i, p)} :: NewestAt(log, i, p) && !log[p].deleted ==> log[p].key in c && Keeps(c[log[p].key], log[p]))
    && (forall k :: k in c ==> exists p {:trigger NewestAt(log, i, p)} :: NewestAt(log, i, p) && log[p].key == k && Keeps(c[k], log[p]))
  }

  lemma ServesNewestKeeps(c: Cache, log: seq<Row>, i: nat)
    requires ServesNewest(c, log, i)
    ensures KeepsServed(c, log, i)
  {
    forall k | k in c
      ensures exists p {:trigger NewestAt(log, i, p)} :: NewestAt(log, i, p) && log[p].key == k && Keeps(c[k], log[p])
    {
      var p :| NewestAt(log, i, p) && log[p].key == k && c[k] == Stored(log[p]);
    }
  }

  /** The part of the termination rule that is about rows that are not terminated. */
  ghost predicate LiveRule(log: seq<Row>) {
    forall p {:trigger NewestAt(log, |log|, p)} :: NewestAt(log, |log|, p) && !log[p].deleted ==> SoftDelete.NewerThanSinceTermination(log, p)
  }

  /** From any snapshot that serves the newest images, with some, all or none of the terminated
      rows, and from any position, the replay ends serving them. */
  ghost predicate AlwaysServes(log: seq<Row>) {
    forall s, d, m: nat, n: nat {:trigger Trace(s, d, log, m), ServesNewest(s[m], log, n)} |
      m <= n <= |log| && Trace(s, d, log, m) && ServesNewest(s[m], log, n) :: ServesNewest(d[|log|], log, |log|)
  }

  lemma ExplainedAfterExpiry(c0: Cache, c: Cache, d: Cache, log: seq<Row>, n: nat, i: nat)
    requires SoftDelete.Explained(c0, c, log, n, i) && Expires(c, d)
    ensures SoftDelete.Explained(c0, d, log, n, i)
  {
    forall k | k in d
      ensures SoftDelete.FromLog(d, log, i, k) || (i < n && k in c0 && d[k] == c0[k])
    {
      if SoftDelete.FromLog(c, log, i, k) {
        var j :| SoftDelete.Uninterrupted(log, i, j) && log[j].key == k && c[k] == Stored(log[j]);
      }
    }
  }

  lemma {:induction false} ReplayExplained(s: seq<Cache>, d: seq<Cache>, log: seq<Row>, m: nat, n: nat, i: nat)
    requires Trace(s, d, log, m) && m <= n <= |log| && m <= i <= |log| && KeyContainsId(log) && SoftDelete.HoldsNewest(s[m], log, n)
    ensures SoftDelete.Explained(s[m], d[i], log, n, i)
    decreases i
  {
    if i == m {
      SoftDelete.SnapshotExplained(s[m], log, m, n);
    } else {
      ReplayExplained(s, d, log, m, n, i - 1);
      assert Step(s, d, log, i - 1);
      SoftDelete.StepExplained(s[m], d[i - 1], log, n, i - 1);
    }
    ExplainedAfterExpiry(s[m], s[i], d[i], log, n, i);
  }

  /** After the newest image of a row that is not terminated, its entry stays. */
  lemma {:induction false} EntrySettles(s: seq<Cache>, d: seq<Cache>, log: seq<Row>, m: nat, p: nat, i: nat, i': nat)
    requires Trace(s, d, log, m) && KeyContainsId(log) && NewestAt(log, |log|, p) && m <= i <= i' <= |log| && p < i
    requires log[p].key in s[i] && s[i][log[p].key] == Stored(log[p]) && !log[p].deleted
    ensures log[p].key in s[i'] && s[i'][log[p].key] == Stored(log[p])
    ensures log[p].key in d[i'] && d[i'][log[p].key] == Stored(log[p])
    decreases i'
  {
    if i < i' {
      EntrySettles(s, d, log, m, p, i, i' - 1);
      assert Step(s, d, log, i' - 1);
    }
    assert Expires(s[i'], d[i']);
  }

  /** An entry met by the newest image of its row is an older image of it, or that image. */
  lemma EntryIsOlder(s: seq<Cache>, d: seq<Cache>, log: seq<Row>, m: nat, n: nat, p: nat)
    requires Trace(s, d, log, m) && KeyContainsId(log) && LiveRule(log) && m <= n <= |log| && SoftDelete.HoldsNewest(s[m], log, n)
    requires m <= p && NewestAt(log, |log|, p) && !log[p].deleted && log[p].key in d[p]
    ensures var e := d[p][log[p].key]; Millis(e.updatedAt) < Millis(log[p].updatedAt) || e == Stored(log[p])
  {
    var k, c := log[p].key, d[p];
    ReplayExplained(s, d, log, m, n, p);
    if SoftDelete.FromLog(c, log, p, k) {
      var j :| SoftDelete.Uninterrupted(log, p, j) && log[j].key == k && c[k] == Stored(log[j]);
      assert log[j].id == log[p].id;
    } else {
      assert NewestAt(log, n, p);
    }
  }

  lemma LiveRowLands(s: seq<Cache>, d: seq<Cache>, log: seq<Row>, m: nat, n: nat, p: nat)
    requires Trace(s, d, log, m) && KeyContainsId(log) && LiveRule(log) && m <= n <= |log| && SoftDelete.HoldsNewest(s[m], log, n)
    requires NewestAt(log, |log|, p) && !log[p].deleted
    ensures log[p].key in d[|log|] && d[|log|][log[p].key] == Stored(log[p])
  {
    if m <= p {
      assert Step(s, d, log, p);
      if log[p].key in d[p] {
        EntryIsOlder(s, d, log, m, n, p);
      }
      EntrySettles(s, d, log, m, p, p + 1, |log|);
    } else {
      assert NewestAt(log, n, p);
      EntrySettles(s, d, log, m, p, m, |log|);
    }
  }

  /** An entry is its row's newest image: an older one would have been replaced when the
      newest came. */
  lemma EntryIsNewest(s: seq<Cache>, d: seq<Cache>, log: seq<Row>, m: nat, n: nat, k: string)
    requires Trace(s, d, log, m) && KeyContainsId(log) && LiveRule(log) && m <= n <= |log| && SoftDelete.HoldsNewest(s[m], log, n)
    requires k in d[|log|]
    ensures exists p {:trigger NewestAt(log, |log|, p)} :: NewestAt(log, |log|, p) && log[p].key == k && d[|log|][k] == Stored(log[p])
  {
    ReplayExplained(s, d, log, m, n, |log|);
    var j :| SoftDelete.Uninterrupted(log, |log|, j) && log[j].key == k && d[|log|][k] == Stored(log[j]);
    var p := HasNewest(log, |log|, j);
    if p != j {
      LiveRowLands(s, d, log, m, n, p);
    }
  }

  lemma SnapshotThenReplay(s: seq<Cache>, d: seq<Cache>, log: seq<Row>, m: nat, n: nat)
    requires Trace(s, d, log, m) && KeyContainsId(log) && LiveRule(log) && m <= n <= |log| && SoftDelete.HoldsNewest(s[m], log, n)
    ensures ServesNewest(d[|log|], log, |log|)
  {
    forall p | NewestAt(log, |log|, p) && !log[p].deleted
      ensures log[p].key in d[|log|] && d[|log|][log[p].key] == Stored(log[p])
    {
      LiveRowLands(s, d, log, m, n, p);
    }
    forall k | k in d[|log|]
      ensures exists p {:trigger NewestAt(log, |log|, p)} :: NewestAt(log, |log|, p) && log[p].key == k && d[|log|][k] == Stored(log[p])
    {
      EntryIsNewest(s, d, log, m, n, k);
    }
  }

  /** A snapshot without some terminated rows is a full one of which these have expired. */
  lemma PartOfFull(f: Cache, c: Cache, d: Cache, log: seq<Row>, n: nat)
    requires SoftDelete.HoldsNewest(f, log, n) && ServesNewest(c, log, n) && Expires(c, d)
    ensures Expires(f, d)
  {
    forall k | k in d
      ensures k in f && d[k] == f[k]
    {
      var p :| NewestAt(log, n, p) && log[p].key == k && c[k] == Stored(log[p]);
    }
    forall k | k in f && !f[k].deleted
      ensures k in d
    {
      var p :| NewestAt(log, n, p) && log[p].key == k;
      assert f[k] == Stored(log[p]) == c[k];
    }
  }

  lemma PartialSnapshotThenReplay(s: seq<Cache>, d: seq<Cache>, log: seq<Row>, m: nat, n: nat)
    requires Trace(s, d, log, m) && KeyContainsId(log) && LiveRule(log) && m <= n <= |log| && ServesNewest(s[m], log, n)
    ensures ServesNewest(d[|log|], log, |log|)
  {
    var f := SoftDelete.SnapshotExists(log, n);
    PartOfFull(f, s[m], d[m], log, n);
    var s' := s[m := f];
    forall i: nat | m <= i < |log|
      ensures Step(s', d, log, i)
    {
      assert Step(s, d, log, i);
    }
    SnapshotThenReplay(s', d, log, m, n);
  }

  lemma FullServes(c: Cache, log: seq<Row>, n: nat)
    requires SoftDelete.HoldsNewest(c, log, n)
    ensures ServesNewest(c, log, n)
  {
    forall k | k in c
      ensures exists p {:trigger NewestAt(log, n, p)} :: NewestAt(log, n, p) && log[p].key == k && c[k] == Stored(log[p])
    {
      var p :| NewestAt(log, n, p) && log[p].key == k;
    }
  }

  /** A replay in which nothing expires is one of these. */
  lemma NothingExpires(s: seq<Cache>, log: seq<Row>, m: nat)
    requires SoftDelete.Trace(s, log, m)
    ensures Trace(s, s, log, m)
  {
    forall i: nat | m <= i < |log|
      ensures Step(s, s, log, i)
    {
      assert SoftDelete.Step(s, log, i);
    }
  }

  lemma RuleServes(log: seq<Row>)
    requires KeyContainsId(log) && LiveRule(log)
    ensures AlwaysServes(log)
  {
    forall s, d, m: nat, n: nat {:trigger Trace(s, d, log, m), ServesNewest(s[m], log, n)} |
      m <= n <= |log| && Trace(s, d, log, m) && ServesNewest(s[m], log, n)
      ensures ServesNewest(d[|log|], log, |log|)
    {
      PartialSnapshotThenReplay(s, d, log, m, n);
    }
  }

  lemma StaleReplay(log: seq<Row>, p: nat, j: nat) returns (s: seq<Cache>)
    requires KeyContainsId(log) && NewestAt(log, |log|, p) && !log[p].deleted
    requires SoftDelete.Uninterrupted(log, p, j) && log[j].id == log[p].id
    requires Millis(log[j].updatedAt) >= Millis(log[p].updatedAt) && Stored(log[j]) != Stored(log[p])
    ensures SoftDelete.Trace(s, log, j + 1) && SoftDelete.HoldsNewest(s[j + 1], log, j + 1)
    ensures log[p].key in s[|log|] && s[|log|][log[p].key] != Stored(log[p])
  {
    var c := SoftDelete.SnapshotExists(log, j + 1);
    s := SoftDelete.TraceOf(c, log, j + 1);
    SoftDelete.StaleImageSurvives(s, log, p, j);
  }

  lemma BrokenRuleServesStale(log: seq<Row>, p: nat, j: nat)
    requires KeyContainsId(log) && NewestAt(log, |log|, p) && !log[p].deleted
    requires SoftDelete.Uninterrupted(log, p, j) && log[j].id == log[p].id
    requires Millis(log[j].updatedAt) >= Millis(log[p].updatedAt) && Stored(log[j]) != Stored(log[p])
    ensures !AlwaysServes(log)
  {
    var s := StaleReplay(log, p, j);
    StaleIsServed(s, log, j + 1, p);
  }

  lemma StaleIsServed(s: seq<Cache>, log: seq<Row>, m: nat, p: nat)
    requires SoftDelete.Trace(s, log, m) && SoftDelete.HoldsNewest(s[m], log, m) && NewestAt(log, |log|, p) && !log[p].deleted
    requires log[p].key in s[|log|] && s[|log|][log[p].key] != Stored(log[p])
    ensures !AlwaysServes(log)
  {
    NothingExpires(s, log, m);
    FullServes(s[m], log, m);
    assert !ServesNewest(s[|log|], log, |log|);
    OneRunIsEnough(s, s, log, m);
  }

  lemma OneRunIsEnough(s: seq<Cache>, d: seq<Cache>, log: seq<Row>, m: nat)
    requires Trace(s, d, log, m) && ServesNewest(s[m], log, m) && !ServesNewest(d[|log|], log, |log|)
    ensures !AlwaysServes(log)
  {
  }

  /** Whatever expires and when, snapshot and replay always end with every row that is not
      terminated served by its newest image and nothing stale, exactly for the logs in which
      the last write of such a row is newer than all since its last termination. */
  lemma ServesExactlyWhen(log: seq<Row>)
    requires KeyContainsId(log)
    ensures AlwaysServes(log) <==> LiveRule(log)
  {
    if LiveRule(log) {
      RuleServes(log);
    } else {
      var p :| NewestAt(log, |log|, p) && !log[p].deleted && !SoftDelete.NewerThanSinceTermination(log, p);
      var j :| SoftDelete.Uninterrupted(log, p, j) && log[j].id == log[p].id &&
               !(Millis(log[j].updatedAt) < Millis(log[p].updatedAt) || Stored(log[j]) == Stored(log[p]));
      BrokenRuleServesStale(log, p, j);
    }
  }

  /** Two updates of a row within one millisecond: the first can be served for good. */
  lemma SameMillisecondUpdateIsLost()
    ensures exists log :: KeyContainsId(log) && !AlwaysServes(log)
  {
    var log := [Row("a", "k", 0, false, "x"), Row("a", "k", 1000, false, "y")];
    assert KeyContainsId(log);
    assert NewestAt(log, |log|, 1) && SoftDelete.Uninterrupted(log, 1, 0);
    assert Stored(log[0]) != Stored(log[1]);
    BrokenRuleServesStale(log, 1, 0);
  }
}
