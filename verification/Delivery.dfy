/** Delivery on one partition, batch after batch and assignment after assignment. */
module Delivery {
  import opened Options
  import opened Commit

  datatype Batch = Batch(records: seq<Record>, processed: seq<Record>)

  /** A batch commits something exactly when its first record was processed. */
  ghost predicate Commits(b: Batch) {
    b.records != [] && b.records[0] in b.processed
  }

  ghost predicate HasGap(b: Batch) {
    exists r :: r in b.records && r !in b.processed
  }

  /** Batch b, whose offsets lie in [lo, hi), takes the group's committed position from p to
      p'. */
  ghost predicate Handled(b: Batch, lo: int, hi: int, p: int, p': int) {
    && lo <= hi && IsBatch(b.records, b.processed)
    && (forall r :: r in b.records ==> lo <= r.offset as int < hi)
    && match Committed(b.records, b.processed)
       case None => p' == p
       case Some(q) => p' == q
  }

  /** What handling one batch does to the position. */
  lemma HandledFacts(b: Batch, lo: int, hi: int, p: int, p': int)
    requires Handled(b, lo, hi, p, p') && p <= lo
    ensures p <= p' <= hi && lo <= hi
    ensures if Commits(b) then lo < p' else p' == p
    ensures p' == p || exists u :: u in b.records && p' == u.offset as int + 1
    ensures forall r :: r in b.records && r !in b.processed ==> p' <= r.offset as int
  {
    var n := Leading(b.records, b.processed);
    if Commits(b) {
      assert b.records[n - 1] in b.records;
      forall r | r in b.records && r !in b.processed
        ensures b.records[n - 1].offset < r.offset
      {
        var i :| 0 <= i < |b.records| && b.records[i] == r;
      }
    }
  }

  /** The batches a partition consumer handles between assignment and loss.  Batch i reads
      offsets from cuts[i] up to cuts[i + 1]; pos[i] is the committed position before it.
      The session starts no lower than the position it resumed from. */
  datatype Session = Session(run: seq<Batch>, cuts: seq<int>, pos: seq<int>)

  ghost predicate IsSession(s: Session) {
    && |s.cuts| == |s.pos| == |s.run| + 1 && s.pos[0] <= s.cuts[0]
    && (forall i :: 0 <= i < |s.run| ==> Handled(s.run[i], s.cuts[i], s.cuts[i + 1], s.pos[i], s.pos[i + 1]))
  }

  function First(s: Session): int
    requires s.pos != []
  {
    s.pos[0]
  }

  function Last(s: Session): int
    requires s.pos != []
  {
    s.pos[|s.pos| - 1]
  }

  /** The committed position is at most every offset still to come. */
  lemma {:induction false} PositionBelowTheRest(s: Session, i: nat)
    requires IsSession(s) && i <= |s.run|
    ensures s.pos[i] <= s.cuts[i]
  {
    if i > 0 {
      var j := i - 1;
      PositionBelowTheRest(s, j);
      HandledFacts(s.run[j], s.cuts[j], s.cuts[j + 1], s.pos[j], s.pos[j + 1]);
    }
  }

  lemma At(s: Session, i: nat)
    requires IsSession(s) && i < |s.run|
    ensures s.pos[i] <= s.pos[i + 1] <= s.cuts[i + 1] && s.pos[i] <= s.cuts[i] <= s.cuts[i + 1]
    ensures if Commits(s.run[i]) then s.cuts[i] < s.pos[i + 1] else s.pos[i + 1] == s.pos[i]
    ensures s.pos[i + 1] == s.pos[i] || exists u :: u in s.run[i].records && s.pos[i + 1] == u.offset as int + 1
    ensures forall r :: r in s.run[i].records && r !in s.run[i].processed ==> s.pos[i + 1] <= r.offset as int
    ensures forall r :: r in s.run[i].records ==> s.cuts[i] <= r.offset as int < s.cuts[i + 1]
  {
    PositionBelowTheRest(s, i);
    HandledFacts(s.run[i], s.cuts[i], s.cuts[i + 1], s.pos[i], s.pos[i + 1]);
  }

  /** The committed position never goes back. */
  lemma {:induction false} PositionNeverDecreases(s: Session, i: nat, j: nat)
    requires IsSession(s) && i <= j <= |s.run|
    ensures s.pos[i] <= s.pos[j] && s.cuts[i] <= s.cuts[j]
    decreases j
  {
    if i < j {
      PositionNeverDecreases(s, i, j - 1);
      At(s, j - 1);
    }
  }

  /** It moves only when a batch commits. */
  lemma {:induction false} NoCommitNoMove(s: Session, i: nat, j: nat)
    requires IsSession(s) && i <= j <= |s.run| && forall k :: i <= k < j ==> !Commits(s.run[k])
    ensures s.pos[i] == s.pos[j]
    decreases j
  {
    if i < j {
      NoCommitNoMove(s, i, j - 1);
      At(s, j - 1);
    }
  }

  /** An unprocessed record lies below the final position exactly when the commit of a later
      batch stepped over it. */
  lemma SkippedMeansSteppedOver(s: Session, i: nat, r: Record)
    requires IsSession(s) && i < |s.run| && r in s.run[i].records && r !in s.run[i].processed
    ensures r.offset as int < Last(s) <==> exists j :: i < j < |s.run| && Commits(s.run[j])
  {
    At(s, i);
    if j :| i < j < |s.run| && Commits(s.run[j]) {
      At(s, j);
      PositionNeverDecreases(s, i + 1, j);
      PositionNeverDecreases(s, j + 1, |s.run|);
    } else {
      NoCommitNoMove(s, i + 1, |s.run|);
    }
  }

  /** Nothing unprocessed lies below the position reached. */
  ghost predicate SkipsNothing(s: Session)
    requires s.pos != []
  {
    forall i, r :: 0 <= i < |s.run| && r in s.run[i].records && r.offset as int < Last(s) ==> r in s.run[i].processed
  }

  /** Once a batch leaves a record unprocessed, no later batch commits. */
  ghost predicate StopsAtGap(s: Session) {
    forall i, j :: 0 <= i < j < |s.run| && HasGap(s.run[i]) ==> !Commits(s.run[j])
  }

  /** A session loses nothing exactly when it stops at its first gap. */
  lemma SkipsNothingExactlyWhen(s: Session)
    requires IsSession(s)
    ensures SkipsNothing(s) <==> StopsAtGap(s)
  {
    if StopsAtGap(s) {
      forall i, r | 0 <= i < |s.run| && r in s.run[i].records && r.offset as int < Last(s)
        ensures r in s.run[i].processed
      {
        if r !in s.run[i].processed {
          SkippedMeansSteppedOver(s, i, r);
          assert HasGap(s.run[i]);
        }
      }
    } else {
      var i, j :| 0 <= i < j < |s.run| && HasGap(s.run[i]) && Commits(s.run[j]);
      var r :| r in s.run[i].records && r !in s.run[i].processed;
      SkippedMeansSteppedOver(s, i, r);
    }
  }

  /** The committer alone does not stop at a gap: a session that loses a record. */
  lemma GapCanBeSteppedOver()
    ensures exists s :: IsSession(s) && !SkipsNothing(s)
  {
    var a, b := Record("", 0, ""), Record("", 1, "");
    var s := Session([Batch([a], []), Batch([b], [b])], [0, 1, 2], [0, 0, 2]);
    assert Leading([a], []) == 0 && Leading([b], [b]) == 1;
    assert Handled(s.run[0], 0, 1, 0, 0) && Handled(s.run[1], 1, 2, 0, 2);
    assert IsSession(s);
    assert a in s.run[0].records && a !in s.run[0].processed;
  }

  /** r came back from the broker, or was processed, in the session. */
  ghost predicate Fetched(s: Session, r: Record) {
    exists i :: 0 <= i < |s.run| && r in s.run[i].records
  }

  ghost predicate Processed(s: Session, r: Record) {
    exists i :: 0 <= i < |s.run| && r in s.run[i].processed
  }

  /** The session read a stretch of the partition's log without holes, from the position it
      resumed from. */
  ghost predicate ReadsLog(s: Session, log: set<Record>)
    requires s.pos != []
  {
    forall r, u :: r in log && First(s) <= r.offset as int && Fetched(s, u) && r.offset <= u.offset ==> Fetched(s, r)
  }

  /** The position a session reaches is where it began, or just after a record it fetched. */
  lemma {:induction false} PositionIsFetched(s: Session, i: nat)
    requires IsSession(s) && i <= |s.run|
    ensures s.pos[i] == s.pos[0] || exists u :: Fetched(s, u) && s.pos[i] == u.offset as int + 1
  {
    if i > 0 {
      At(s, i - 1);
      if s.pos[i] == s.pos[i - 1] {
        PositionIsFetched(s, i - 1);
      } else {
        var u :| u in s.run[i - 1].records && s.pos[i] == u.offset as int + 1;
        assert Fetched(s, u);
      }
    }
  }

  lemma SessionProcessesItsStretch(s: Session, log: set<Record>, r: Record)
    requires IsSession(s) && ReadsLog(s, log) && StopsAtGap(s)
    requires r in log && First(s) <= r.offset as int < Last(s)
    ensures Processed(s, r)
  {
    PositionIsFetched(s, |s.run|);
    assert Fetched(s, r);
    SkipsNothingExactlyWhen(s);
  }

  /** The life of a partition in the group: sessions, each resuming from the position the
      previous one left behind. */
  ghost predicate IsHistory(h: seq<Session>, log: set<Record>) {
    && (forall i :: 0 <= i < |h| ==> IsSession(h[i]) && ReadsLog(h[i], log))
    && (forall i :: 0 < i < |h| ==> First(h[i]) == Last(h[i - 1]))
  }

  ghost predicate EverProcessed(h: seq<Session>, r: Record) {
    exists i :: 0 <= i < |h| && Processed(h[i], r)
  }

  /** At-least-once delivery over a partition's whole life: if every session stops at its
      first gap, every record of the log between the first position and the last has been
      processed at least once, across however many reassignments. */
  lemma {:induction false} AtLeastOnce(h: seq<Session>, log: set<Record>, r: Record)
    requires IsHistory(h, log) && h != [] && forall i :: 0 <= i < |h| ==> StopsAtGap(h[i])
    requires r in log && First(h[0]) <= r.offset as int < Last(h[|h| - 1])
    ensures EverProcessed(h, r)
  {
    var last := |h| - 1;
    if First(h[last]) <= r.offset as int {
      SessionProcessesItsStretch(h[last], log, r);
    } else {
      AtLeastOnce(h[..last], log, r);
      var i :| 0 <= i < last && Processed(h[..last][i], r);
      assert Processed(h[i], r);
    }
  }
}
