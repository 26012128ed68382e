/** ProcessEvents: one goroutine per record, all appending to one list under a mutex.

    A worker first decides, on its own, whether its record is settled (may be committed).
    If so it takes the mutex, reads the shared list, writes it back one longer and releases
    the mutex.  The steps of different workers interleave freely. */
module Workers {
  import opened Options
  import opened Commit

  const TWELVE_HOURS: int := 12 * 3600 * 1_000_000_000

  /** What became of one record: it did not decode, it was processed, or it failed with the
      given retry flag, its event having been ingested `age` nanoseconds before. */
  datatype Outcome = Undecodable | Succeeded | Failed(retryable: bool, age: int)

  /** The worker's verdict, branch by branch. */
  function Settled(o: Outcome): bool {
    match o
    case Undecodable => true
    case Succeeded => true
    case Failed(retryable, age) => if retryable && age < TWELVE_HOURS then false else true
  }

  /** Whether a dead letter is pushed for the record. */
  function DeadLetter(o: Outcome): bool {
    o.Failed? && Settled(o)
  }

  datatype Pc = Deciding | Waiting | Locked | Loaded(copy: seq<nat>) | Stored | Done

  /** Workers and the list are given by record positions. */
  datatype State = State(pcs: seq<Pc>, mutex: Option<nat>, list: seq<nat>)

  ghost predicate Init(s: State, n: nat) {
    |s.pcs| == n && (forall w :: 0 <= w < n ==> s.pcs[w] == Deciding) && s.mutex == None && s.list == []
  }

  /** One step of worker w. */
  ghost predicate Step(settled: seq<bool>, s: State, s': State, w: nat) {
    && |s.pcs| == |settled| && w < |s.pcs|
    && match s.pcs[w]
       case Deciding =>
         s' == s.(pcs := s.pcs[w := if settled[w] then Waiting else Done])
       case Waiting =>
         s.mutex == None && s' == s.(pcs := s.pcs[w := Locked], mutex := Some(w))
       case Locked =>
         s' == s.(pcs := s.pcs[w := Loaded(s.list)])
       case Loaded(copy) =>
         s' == s.(pcs := s.pcs[w := Stored], list := copy + [w])
       case Stored =>
         s' == s.(pcs := s.pcs[w := Done], mutex := None)
       case Done => false
  }

  ghost predicate InCritical(p: Pc) {
    p.Locked? || p.Loaded? || p.Stored?
  }

  /** Worker w's contribution to the list has been made. */
  ghost predicate Contributed(settled: seq<bool>, s: State, w: int)
    requires |s.pcs| == |settled|
  {
    0 <= w < |settled| && settled[w] && (s.pcs[w] == Stored || s.pcs[w] == Done)
  }

  ghost predicate Distinct(l: seq<nat>) {
    forall i, j :: 0 <= i < j < |l| ==> l[i] != l[j]
  }

  ghost predicate Inv(settled: seq<bool>, s: State) {
    && |s.pcs| == |settled| && (s.mutex.Some? ==> s.mutex.value < |s.pcs|)
    && (forall w :: 0 <= w < |s.pcs| ==> (InCritical(s.pcs[w]) <==> s.mutex == Some(w)))
    && (forall w :: 0 <= w < |s.pcs| && s.pcs[w].Loaded? ==> s.pcs[w].copy == s.list)
    && (forall w :: 0 <= w < |s.pcs| && (InCritical(s.pcs[w]) || s.pcs[w] == Waiting) ==> settled[w])
    && Distinct(s.list)
    && (forall w: nat :: w in s.list <==> Contributed(settled, s, w))
  }

  lemma StepKeepsInv(settled: seq<bool>, s: State, s': State, w: nat)
    requires Inv(settled, s) && Step(settled, s, s', w)
    ensures Inv(settled, s')
  {
    if s.pcs[w].Loaded? {
      assert w !in s.list;
      assert forall v: nat :: v in s'.list <==> v in s.list || v == w;
    }
  }

  ghost predicate Next(settled: seq<bool>, s: State, s': State) {
    exists w: nat :: Step(settled, s, s', w)
  }

  /** A run of the worker pool. */
  ghost predicate Run(settled: seq<bool>, states: seq<State>) {
    && states != [] && Init(states[0], |settled|)
    && forall i :: 0 < i < |states| ==> Next(settled, states[i - 1], states[i])
  }

  lemma {:induction false} RunKeepsInv(settled: seq<bool>, states: seq<State>, i: nat)
    requires Run(settled, states) && i < |states|
    ensures Inv(settled, states[i])
  {
    if i > 0 {
      RunKeepsInv(settled, states, i - 1);
      var w: nat :| Step(settled, states[i - 1], states[i], w);
      StepKeepsInv(settled, states[i - 1], states[i], w);
    }
  }

  /** A worker that is not done can move, or waits for one that can: the pool never hangs. */
  lemma NeverStuck(settled: seq<bool>, s: State)
    requires Inv(settled, s) && exists w :: 0 <= w < |s.pcs| && s.pcs[w] != Done
    ensures exists s' :: Next(settled, s, s')
  {
    var w :| 0 <= w < |s.pcs| && s.pcs[w] != Done;
    var v: nat := if s.pcs[w] == Waiting && s.mutex.Some? then s.mutex.value else w;
    var s' := match s.pcs[v]
      case Deciding => s.(pcs := s.pcs[v := if settled[v] then Waiting else Done])
      case Waiting => s.(pcs := s.pcs[v := Locked], mutex := Some(v))
      case Locked => s.(pcs := s.pcs[v := Loaded(s.list)])
      case Loaded(copy) => s.(pcs := s.pcs[v := Stored], list := copy + [v])
      case Stored => s.(pcs := s.pcs[v := Done], mutex := None)
      case Done => s;
    assert Step(settled, s, s', v);
    assert Next(settled, s, s');
  }

  ghost predicate AllDone(s: State) {
    forall w :: 0 <= w < |s.pcs| ==> s.pcs[w] == Done
  }

  /** Whatever the interleaving, when every worker is done the list holds each settled
      position exactly once and no other. */
  lemma ReturnsSettledOnce(settled: seq<bool>, states: seq<State>, i: nat)
    requires Run(settled, states) && i < |states| && AllDone(states[i])
    ensures Distinct(states[i].list)
    ensures forall w: nat :: w in states[i].list <==> w < |settled| && settled[w]
  {
    RunKeepsInv(settled, states, i);
  }

  /** Steps a worker still has before it. */
  function Ahead(p: Pc): nat {
    match p
    case Deciding => 5
    case Waiting => 4
    case Locked => 3
    case Loaded(_) => 2
    case Stored => 1
    case Done => 0
  }

  function Work(pcs: seq<Pc>): nat {
    if pcs == [] then 0 else Work(pcs[..|pcs| - 1]) + Ahead(pcs[|pcs| - 1])
  }

  lemma {:induction false} WorkOfUpdate(pcs: seq<Pc>, w: nat, p: Pc)
    requires w < |pcs|
    ensures Work(pcs[w := p]) == Work(pcs) - Ahead(pcs[w]) + Ahead(p)
  {
    var front, n := pcs[..|pcs| - 1], |pcs| - 1;
    if w < n {
      WorkOfUpdate(front, w, p);
      assert pcs[w := p][..n] == front[w := p];
    } else {
      assert pcs[w := p][..n] == front;
    }
  }

  lemma {:induction false} WorkAtStart(pcs: seq<Pc>)
    requires forall w :: 0 <= w < |pcs| ==> pcs[w] == Deciding
    ensures Work(pcs) == 5 * |pcs|
  {
    if pcs != [] {
      WorkAtStart(pcs[..|pcs| - 1]);
    }
  }

  lemma {:induction false} WorkLeft(settled: seq<bool>, states: seq<State>, i: nat)
    requires Run(settled, states) && i < |states|
    ensures i + Work(states[i].pcs) <= 5 * |settled|
  {
    if i == 0 {
      WorkAtStart(states[0].pcs);
    } else {
      WorkLeft(settled, states, i - 1);
      var w: nat :| Step(settled, states[i - 1], states[i], w);
      WorkOfUpdate(states[i - 1].pcs, w, states[i].pcs[w]);
    }
  }

  /** The pool finishes: no run makes more than five steps for each record, and one that can
      go no further has every worker done. */
  lemma PoolFinishes(settled: seq<bool>, states: seq<State>, last: State)
    requires Run(settled, states) && last == states[|states| - 1]
    ensures |states| <= 5 * |settled| + 1
    ensures AllDone(last) || exists s' :: Next(settled, last, s')
  {
    var n := |states| - 1;
    WorkLeft(settled, states, n);
    RunKeepsInv(settled, states, n);
    if !AllDone(last) {
      NeverStuck(settled, last);
    }
  }

  /** The records at the listed positions. */
  function Pick(records: seq<Record>, list: seq<nat>): (picked: seq<Record>)
    requires forall i :: 0 <= i < |list| ==> list[i] < |records|
    ensures |picked| == |list| && forall i :: 0 <= i < |list| ==> picked[i] == records[list[i]]
  {
    seq(|list|, i requires 0 <= i < |list| => records[list[i]])
  }

  /** Length of the longest prefix of settled records. */
  function SettledPrefix(settled: seq<bool>): (n: nat)
    ensures n <= |settled|
    ensures forall i :: 0 <= i < n ==> settled[i]
    ensures n < |settled| ==> !settled[n]
  {
    if settled == [] || !settled[0] then 0 else SettledPrefix(settled[1..]) + 1
  }

  lemma PickedIsBatch(records: seq<Record>, settled: seq<bool>, list: seq<nat>)
    requires Increasing(records) && |settled| == |records| && Distinct(list)
    requires forall w: nat :: w in list <==> w < |settled| && settled[w]
    ensures forall j :: 0 <= j < |list| ==> list[j] < |records|
    ensures IsBatch(records, Pick(records, list))
    ensures forall i :: 0 <= i < |records| ==> (records[i] in Pick(records, list) <==> settled[i])
  {
    assert forall j :: 0 <= j < |list| ==> list[j] in list;
    var processed := Pick(records, list);
    forall i | 0 <= i < |records|
      ensures records[i] in processed <==> settled[i]
    {
      PickedIffListed(records, list, processed, i);
    }
    forall i, j | 0 <= i < j < |processed|
      ensures processed[i] != processed[j]
    {
      assert records[list[i]].offset != records[list[j]].offset;
    }
  }

  lemma PickedIffListed(records: seq<Record>, list: seq<nat>, processed: seq<Record>, i: nat)
    requires Increasing(records) && i < |records|
    requires |processed| == |list| && forall j :: 0 <= j < |list| ==> list[j] < |records| && processed[j] == records[list[j]]
    ensures records[i] in processed <==> i in list
  {
    if i in list {
      var j :| 0 <= j < |list| && list[j] == i;
      assert processed[j] == records[i];
    }
    if records[i] in processed {
      var j :| 0 <= j < |processed| && processed[j] == records[i];
      assert list[j] == i;
    }
  }

  /** From the workers to the commit: for every interleaving, the position committed after
      the batch is the end of its longest prefix of settled records, and everything is
      committed exactly when every record is settled. */
  lemma BatchCommitsSettledPrefix(records: seq<Record>, settled: seq<bool>, states: seq<State>, i: nat)
    returns (processed: seq<Record>)
    requires Increasing(records) && |settled| == |records|
    requires Run(settled, states) && i < |states| && AllDone(states[i])
    ensures forall j :: 0 <= j < |states[i].list| ==> states[i].list[j] < |records|
    ensures processed == Pick(records, states[i].list) && IsBatch(records, processed)
    ensures var n := SettledPrefix(settled);
      && Committed(records, processed) == (if n == 0 then None else Some(records[n - 1].offset as int + 1))
      && (|processed| == |records| <==> n == |records|)
  {
    ReturnsSettledOnce(settled, states, i);
    PickedIsBatch(records, settled, states[i].list);
    processed := Pick(records, states[i].list);
    SettledPrefixIsCommitted(records, settled, processed);
  }

  lemma SettledPrefixIsCommitted(records: seq<Record>, settled: seq<bool>, processed: seq<Record>)
    requires |settled| == |records| && IsBatch(records, processed)
    requires forall i :: 0 <= i < |records| ==> (records[i] in processed <==> settled[i])
    ensures SettledPrefix(settled) == Leading(records, processed)
    ensures |processed| == |records| <==> SettledPrefix(settled) == |records|
  {
    AllProcessedWhenAsMany(records, processed);
  }
}
