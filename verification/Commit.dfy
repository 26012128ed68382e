/** Which offset a partition consumer commits after a batch. */
module Commit {
  import opened Options
  import opened Text

  const MAX_INT64: int := 0x7FFF_FFFF_FFFF_FFFF
  newtype Offset = x: int | -0x8000_0000_0000_0000 <= x <= 0x7FFF_FFFF_FFFF_FFFF

  datatype Record = Record(key: string, offset: Offset, value: string)

  /** fmt.Sprintf("%s-%d", string(record.Key), record.Offset) */
  function Name(r: Record): string {
    r.key + "-" + Signed(r.offset as int)
  }

  /** Names are ambiguous only between an offset and its negative, where the sign is taken
      for the end of the key. */
  lemma NameCollision(r: Record, s: Record)
    ensures Name(r) == Name(s) <==>
      || (r.key == s.key && r.offset == s.offset)
      || (r.offset < 0 && s.offset as int == -(r.offset as int) && s.key == r.key + "-")
      || (s.offset < 0 && r.offset as int == -(s.offset as int) && r.key == s.key + "-")
  {
    var a, b := r.offset as int, s.offset as int;
    var x, y := Decimal(if a < 0 then -a else a), Decimal(if b < 0 then -b else b);
    var k := if a < 0 then r.key + "-" else r.key;
    var l := if b < 0 then s.key + "-" else s.key;
    assert Name(r) == k + ['-'] + x;
    assert Name(s) == l + ['-'] + y;
    if Name(r) == Name(s) {
      LastSeparatorSplits('-', k, x, l, y);
      DecimalInjective(if a < 0 then -a else a, if b < 0 then -b else b);
      assert a < 0 && b < 0 ==> r.key == k[..|k| - 1] == s.key;
    }
  }

  /** Key a at offset -1 and key a- at offset 1. */
  lemma NamesCanCollide()
    ensures exists r, s :: r != s && Name(r) == Name(s)
  {
    var r, s := Record("a", -1, ""), Record("a-", 1, "");
    NameCollision(r, s);
  }

  function Names(records: seq<Record>): set<string> {
    set r | r in records :: Name(r)
  }

  /** Everything below r's offset, and r itself, is accounted for by the names seen. */
  ghost predicate Safe(seen: set<string>, records: seq<Record>, r: Record) {
    r.offset as int < MAX_INT64 && forall u {:trigger u in records} :: u in records && Name(u) !in seen ==> r.offset < u.offset
  }

  /** max is a safe record of the highest offset, None if no processed record is safe. */
  ghost predicate IsMaxCommitable(processed: seq<Record>, records: seq<Record>, max: Option<Record>) {
    match max
    case None => forall r :: r in processed ==> !Safe(Names(processed), records, r)
    case Some(m) =>
      && m in processed && Safe(Names(processed), records, m)
      && forall r :: r in processed && Safe(Names(processed), records, r) ==> r.offset <= m.offset
  }

  /** The names of the processed records. */
  method IndexProcessed(processed: seq<Record>) returns (seen: set<string>)
    ensures seen == Names(processed)
  {
    seen := {};
    for i := 0 to |processed|
      invariant seen == Names(processed[..i])
    {
      assert processed[..i + 1] == processed[..i] + [processed[i]];
      seen := seen + {Name(processed[i])};
    }
    assert processed[..|processed|] == processed;
  }

  /** The lowest offset of a record whose name was not seen, or the largest offset there is. */
  method MinUnprocessed(seen: set<string>, records: seq<Record>) returns (min: Offset)
    ensures forall i :: 0 <= i < |records| && Name(records[i]) !in seen ==> min <= records[i].offset
    ensures min as int == MAX_INT64 || exists u :: u in records && Name(u) !in seen && u.offset == min
  {
    min := 0x7FFF_FFFF_FFFF_FFFF;
    var found := false;
    ghost var at := 0;
    for i := 0 to |records|
      invariant forall j :: 0 <= j < i && Name(records[j]) !in seen ==> found && min <= records[j].offset
      invariant found ==> 0 <= at < i && Name(records[at]) !in seen && records[at].offset == min
      invariant !found ==> min as int == MAX_INT64
    {
      if Name(records[i]) !in seen {
        if !found || records[i].offset < min {
          min := records[i].offset;
          found := true;
          at := i;
        }
      }
    }
    assert found ==> records[at] in records;
  }

  lemma BelowMinIsSafe(seen: set<string>, records: seq<Record>, min: Offset, r: Record)
    requires forall i :: 0 <= i < |records| && Name(records[i]) !in seen ==> min <= records[i].offset
    requires min as int == MAX_INT64 || exists u :: u in records && Name(u) !in seen && u.offset == min
    ensures r.offset < min <==> Safe(seen, records, r)
  {
  }

  /** findMaxCommitableRecord */
  method FindMaxCommitableRecord(processed: seq<Record>, records: seq<Record>) returns (max: Option<Record>)
    ensures IsMaxCommitable(processed, records, max)
  {
    var seen := IndexProcessed(processed);
    var min := MinUnprocessed(seen, records);
    max := None;
    for i := 0 to |processed|
      invariant max.Some? ==> max.value in processed && max.value.offset < min
      invariant forall j :: 0 <= j < i && processed[j].offset < min ==> max.Some? && processed[j].offset <= max.value.offset
    {
      if processed[i].offset < min && (max.None? || processed[i].offset > max.value.offset) {
        max := Some(processed[i]);
      }
    }
    forall r | r in processed
      ensures r.offset < min <==> Safe(seen, records, r)
    {
      BelowMinIsSafe(seen, records, min, r);
    }
  }

  /** Every record of the batch up to r has been processed. */
  ghost predicate ProcessedUpTo(processed: seq<Record>, records: seq<Record>, r: Record) {
    forall u :: u in records && u.offset <= r.offset ==> u in processed
  }

  /** Increasing non-negative offsets, as one partition delivers them. */
  ghost predicate Increasing(records: seq<Record>) {
    && (forall i :: 0 <= i < |records| ==> 0 <= records[i].offset as int < MAX_INT64)
    && (forall i, j :: 0 <= i < j < |records| ==> records[i].offset < records[j].offset)
  }

  /** A batch of one partition, of which some records come back as processed, none of them
      twice, in any order. */
  ghost predicate IsBatch(records: seq<Record>, processed: seq<Record>) {
    && Increasing(records)
    && (forall r :: r in processed ==> r in records)
    && (forall i, j :: 0 <= i < j < |processed| ==> processed[i] != processed[j])
  }

  lemma SameOffsetSameRecord(records: seq<Record>, processed: seq<Record>, r: Record, u: Record)
    requires IsBatch(records, processed) && r in records && u in records && r.offset == u.offset
    ensures r == u
  {
    var i :| 0 <= i < |records| && records[i] == r;
    var j :| 0 <= j < |records| && records[j] == u;
  }

  /** On a batch the names are faithful, so safety is what it should be. */
  lemma SafeMeansProcessedUpTo(processed: seq<Record>, records: seq<Record>, r: Record)
    requires IsBatch(records, processed) && r in records
    ensures Safe(Names(processed), records, r) <==> ProcessedUpTo(processed, records, r)
  {
    forall u | u in records
      ensures Name(u) in Names(processed) <==> u in processed
    {
      if Name(u) in Names(processed) {
        var p :| p in processed && Name(p) == Name(u);
        NameCollision(p, u);
        SameOffsetSameRecord(records, processed, p, u);
      }
    }
  }

  /** The record chosen has only processed records at or below it, no processed record above
      it does, and none is chosen exactly when no processed record has that property. */
  lemma LargestSafePrefix(processed: seq<Record>, records: seq<Record>, max: Option<Record>)
    requires IsBatch(records, processed) && IsMaxCommitable(processed, records, max)
    ensures max.Some? ==> max.value in processed && ProcessedUpTo(processed, records, max.value)
    ensures max.Some? ==> forall r :: r in processed && r.offset > max.value.offset ==> !ProcessedUpTo(processed, records, r)
    ensures max.None? <==> forall r :: r in processed ==> !ProcessedUpTo(processed, records, r)
  {
    forall r | r in processed
      ensures Safe(Names(processed), records, r) <==> ProcessedUpTo(processed, records, r)
    {
      SafeMeansProcessedUpTo(processed, records, r);
    }
  }

  /** Length of the longest leading run of processed records. */
  function Leading(records: seq<Record>, processed: seq<Record>): (n: nat)
    ensures n <= |records|
    ensures forall i :: 0 <= i < n ==> records[i] in processed
    ensures n < |records| ==> records[n] !in processed
  {
    if records == [] || records[0] !in processed then
      0
    else
      var n := Leading(records[1..], processed);
      assert forall i :: 0 < i <= n ==> records[i] == records[1..][i - 1];
      n + 1
  }

  /** The position to resume from that a batch commits, if any. */
  function Committed(records: seq<Record>, processed: seq<Record>): Option<int> {
    var n := Leading(records, processed);
    if n == 0 then None else Some(records[n - 1].offset as int + 1)
  }

  lemma AllProcessedWhenAsMany(records: seq<Record>, processed: seq<Record>)
    requires IsBatch(records, processed)
    ensures |processed| <= |records|
    ensures |processed| == |records| <==> forall r :: r in records ==> r in processed
  {
    var a, b := set r | r in processed, set r | r in records;
    CountDistinct(processed, a);
    CountDistinct(records, b);
    assert a <= b;
    SubsetCount(a, b);
    if forall r :: r in records ==> r in processed {
      assert a == b;
    } else {
      var r :| r in records && r !in processed;
      assert r in b && r !in a;
    }
  }

  lemma {:induction false} CountDistinct(s: seq<Record>, elements: set<Record>)
    requires forall i, j :: 0 <= i < j < |s| ==> s[i] != s[j]
    requires elements == set r | r in s
    ensures |elements| == |s|
  {
    if s != [] {
      var last, front := s[|s| - 1], s[..|s| - 1];
      CountDistinct(front, elements - {last});
    }
  }

  lemma SubsetCount(a: set<Record>, b: set<Record>)
    requires a <= b
    ensures |a| <= |b| && (|a| == |b| <==> a == b)
  {
    assert b == a + (b - a);
  }

  lemma ProcessedUpToLeading(processed: seq<Record>, records: seq<Record>, i: nat)
    requires IsBatch(records, processed) && i < |records|
    ensures ProcessedUpTo(processed, records, records[i]) <==> i < Leading(records, processed)
  {
    var n := Leading(records, processed);
    if i < n {
      forall u | u in records && u.offset <= records[i].offset
        ensures u in processed
      {
        var j :| 0 <= j < |records| && records[j] == u;
      }
    } else {
      assert records[n].offset <= records[i].offset;
    }
  }

  lemma HighestProcessedUpTo(processed: seq<Record>, records: seq<Record>, i: nat)
    requires IsBatch(records, processed) && i < |records| && ProcessedUpTo(processed, records, records[i])
    requires forall r :: r in processed && r.offset > records[i].offset ==> !ProcessedUpTo(processed, records, r)
    ensures Leading(records, processed) == i + 1
  {
    var n := Leading(records, processed);
    ProcessedUpToLeading(processed, records, i);
    ProcessedUpToLeading(processed, records, n - 1);
  }

  lemma NoneCommitable(processed: seq<Record>, records: seq<Record>)
    requires IsBatch(records, processed) && forall r :: r in processed ==> !ProcessedUpTo(processed, records, r)
    ensures Leading(records, processed) == 0
  {
    var n := Leading(records, processed);
    if n > 0 {
      ProcessedUpToLeading(processed, records, n - 1);
    }
  }

  lemma OneCommitable(processed: seq<Record>, records: seq<Record>, m: Record)
    requires IsBatch(records, processed) && m in processed && ProcessedUpTo(processed, records, m)
    requires forall r :: r in processed && r.offset > m.offset ==> !ProcessedUpTo(processed, records, r)
    ensures Leading(records, processed) > 0 && m == records[Leading(records, processed) - 1]
  {
    assert m in records;
    var i :| 0 <= i < |records| && records[i] == m;
    HighestProcessedUpTo(processed, records, i);
  }

  lemma MaxCommitableIsLeadingEnd(processed: seq<Record>, records: seq<Record>, max: Option<Record>)
    requires IsBatch(records, processed) && IsMaxCommitable(processed, records, max)
    ensures max.None? ==> Leading(records, processed) == 0
    ensures max.Some? ==> Leading(records, processed) > 0 && max.value == records[Leading(records, processed) - 1]
  {
    LargestSafePrefix(processed, records, max);
    match max
    case None => NoneCommitable(processed, records);
    case Some(m) => OneCommitable(processed, records, m);
  }

  /** CommitRecords: the position after the highest offset given. */
  ghost predicate IsHighest(records: seq<Record>, resume: Option<int>) {
    match resume
    case None => records == []
    case Some(q) =>
      && (exists r :: r in records && q == r.offset as int + 1)
      && (forall r :: r in records ==> r.offset as int < q)
  }

  method HighestOffset(records: seq<Record>) returns (resume: Option<int>)
    ensures IsHighest(records, resume)
  {
    resume := None;
    for i := 0 to |records|
      invariant i == 0 <==> resume.None?
      invariant resume.Some? ==> exists r :: r in records && resume.value == r.offset as int + 1
      invariant resume.Some? ==> forall j :: 0 <= j < i ==> records[j].offset as int < resume.value
    {
      if resume.None? || resume.value <= records[i].offset as int {
        resume := Some(records[i].offset as int + 1);
      }
    }
  }

  lemma HighestOfAll(records: seq<Record>, processed: seq<Record>, resume: Option<int>)
    requires IsBatch(records, processed) && |processed| == |records| && IsHighest(records, resume)
    ensures resume == Committed(records, processed)
  {
    AllProcessedWhenAsMany(records, processed);
    var n := |records|;
    if n > 0 {
      assert records[n - 1] in records;
      var r :| r in records && resume.value == r.offset as int + 1;
      assert Leading(records, processed) == n;
    }
  }

  lemma HighestOfOne(m: Record, resume: Option<int>)
    requires IsHighest([m], resume)
    ensures resume == Some(m.offset as int + 1)
  {
  }

  lemma MaxIsCommitted(records: seq<Record>, processed: seq<Record>, max: Option<Record>)
    requires IsBatch(records, processed) && IsMaxCommitable(processed, records, max)
    ensures Committed(records, processed) == if max.None? then None else Some(max.value.offset as int + 1)
  {
    MaxCommitableIsLeadingEnd(processed, records, max);
  }

  /** processRecordsAndCommit, given what processRecords returned.  Comparing lengths is a
      sound test for "all processed", and either way what is committed is the end of the
      longest processed prefix: nothing unprocessed lies below it and it cannot be larger. */
  method ProcessRecordsAndCommit(records: seq<Record>, processed: seq<Record>) returns (resume: Option<int>)
    requires IsBatch(records, processed)
    ensures resume == Committed(records, processed)
  {
    var commitable := records;
    if |processed| != |records| {
      var max := FindMaxCommitableRecord(processed, records);
      MaxIsCommitted(records, processed, max);
      if max.None? {
        return None;
      }
      commitable := [max.value];
      resume := HighestOffset(commitable);
      HighestOfOne(max.value, resume);
      return;
    }
    resume := HighestOffset(commitable);
    HighestOfAll(records, processed, resume);
  }
}
