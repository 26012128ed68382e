/** FlagStore: a sorted set in which a flagged value waits for a while, so that flags that come
    close together are handled once.

    The member for a value carries the ten-second window of the flag.  A later flag in the
    same window raises the member's score; once the window is over a flag makes a new member,
    and the old one can only age. */
module FlagStore {
  import opened Text

  const SUBSCRIPTION_BUCKET_DURATION: int := 10

  /** Start of the window that `now`, in Unix seconds, falls into. */
  function Bucket(now: nat): (bucket: nat)
    ensures bucket <= now < bucket + SUBSCRIPTION_BUCKET_DURATION
    ensures bucket % 10 == 0
  {
    now / 10 * 10
  }

  /** "%s|%d" */
  function Member(value: string, now: nat): string {
    value + "|" + Decimal(Bucket(now))
  }

  /** There is one member for each value and window: whatever separators the values contain,
      different values or windows never share one. */
  lemma MemberInjective(v: string, t: nat, w: string, u: nat)
    ensures Member(v, t) == Member(w, u) <==> v == w && Bucket(t) == Bucket(u)
  {
    if Member(v, t) == Member(w, u) {
      LastSeparatorSplits('|', v, Decimal(Bucket(t)), w, Decimal(Bucket(u)));
      DecimalInjective(Bucket(t), Bucket(u));
    }
  }

  /** The sorted set: the score of each member. */
  type Scores = map<string, nat>

  class FlagStore {
    var scores: Scores

    constructor ()
      ensures scores == map[]
    {
      scores := map[];
    }

    /** Flag, at time `now`: ZADD overwrites the score, if the store can be reached. */
    method Flag(value: string, now: nat, reachable: bool) returns (ok: bool)
      modifies this
      ensures ok == reachable
      ensures scores == if ok then old(scores)[Member(value, now) := now] else old(scores)
    {
      var bucket := (now / SUBSCRIPTION_BUCKET_DURATION) * SUBSCRIPTION_BUCKET_DURATION;
      if !reachable {
        return false;
      }
      scores := scores[value + "|" + Decimal(bucket) := now];
      ok := true;
    }
  }

  /** What happens to the store: a flag, or the consumer's removal of members whose score is
      `delay` old. */
  datatype Op = Flag(value: string, at: nat) | Poll(taken: set<string>, at: nat)

  ghost predicate Due(s: Scores, m: string, at: nat, delay: nat) {
    m in s && s[m] + delay <= at
  }

  ghost predicate Step(s: Scores, op: Op, s': Scores, delay: nat) {
    match op
    case Flag(value, at) => s' == s[Member(value, at) := at]
    case Poll(taken, at) => (forall m :: m in taken ==> Due(s, m, at, delay)) && s' == s - taken
  }

  /** A poll that leaves nothing due behind. */
  ghost predicate TakesAllDue(s: Scores, op: Op, delay: nat) {
    op.Poll? && forall m :: Due(s, m, op.at, delay) ==> m in op.taken
  }

  /** A run of the store under a clock that never goes back. */
  ghost predicate Run(ops: seq<Op>, states: seq<Scores>, delay: nat) {
    && |states| == |ops| + 1 && states[0] == map[]
    && (forall i :: 0 <= i < |ops| ==> Step(states[i], ops[i], states[i + 1], delay))
    && (forall i, j :: 0 <= i <= j < |ops| ==> ops[i].at <= ops[j].at)
  }

  /** A member names the window its score lies in. */
  ghost predicate NamesWindow(m: string, score: nat) {
    exists value :: m == Member(value, score)
  }

  /** At every point of a run each member's score lies in the member's window, which has begun
      already. */
  lemma {:induction false} ScoresStayInWindow(ops: seq<Op>, states: seq<Scores>, delay: nat, i: nat, m: string)
    requires Run(ops, states, delay) && i < |states| && m in states[i]
    ensures NamesWindow(m, states[i][m])
    ensures i > 0 && states[i][m] <= ops[i - 1].at
  {
    assert i > 0;
    assert Step(states[i - 1], ops[i - 1], states[i], delay);
    if ops[i - 1].Flag? && m == Member(ops[i - 1].value, ops[i - 1].at) {
      assert NamesWindow(m, ops[i - 1].at);
    } else {
      ScoresStayInWindow(ops, states, delay, i - 1, m);
    }
  }

  /** A flag in a later window does not touch a member: once its window is over, a member keeps
      its score until it is taken, and never comes back. */
  lemma {:induction false} FrozenAfterWindow(ops: seq<Op>, states: seq<Scores>, delay: nat, value: string, t: nat, i: nat, j: nat)
    requires Run(ops, states, delay) && i <= j < |states|
    requires forall k :: i <= k < j ==> ops[k].at >= Bucket(t) + 10
    ensures Member(value, t) in states[j] ==>
      Member(value, t) in states[i] && states[j][Member(value, t)] == states[i][Member(value, t)]
  {
    if i < j {
      FrozenAfterWindow(ops, states, delay, value, t, i, j - 1);
      assert Step(states[j - 1], ops[j - 1], states[j], delay);
      if ops[j - 1].Flag? {
        MemberInjective(value, t, ops[j - 1].value, ops[j - 1].at);
      }
    }
  }

  /** Poll k answers a flag of `value` at time t: it takes the value's member, whose score was
      no older than the flag and `delay` old. */
  ghost predicate Answers(ops: seq<Op>, states: seq<Scores>, delay: nat, value: string, t: nat, k: int) {
    var m := Member(value, t);
    && 0 <= k < |ops| && k < |states| && ops[k].Poll? && m in ops[k].taken && m in states[k]
    && t <= states[k][m] < Bucket(t) + 10 && states[k][m] + delay <= ops[k].at
  }

  /** The flag is waiting in a member with a score from its own time or later, and in its own
      window. */
  ghost predicate Covered(s: Scores, value: string, t: nat) {
    var m := Member(value, t);
    m in s && t <= s[m] < Bucket(t) + 10
  }

  /** No flag is lost: after a flag, at every later point of the run, either some poll since
      has answered it, or it is still covered. */
  lemma {:induction false} FlagIsKept(ops: seq<Op>, states: seq<Scores>, delay: nat, i: nat, j: nat)
    requires Run(ops, states, delay) && i < |ops| && ops[i].Flag? && i < j < |states|
    ensures
      || Covered(states[j], ops[i].value, ops[i].at)
      || exists k :: i < k < j && Answers(ops, states, delay, ops[i].value, ops[i].at, k)
  {
    var value, t := ops[i].value, ops[i].at;
    var m := Member(value, t);
    assert Step(states[j - 1], ops[j - 1], states[j], delay);
    if j > i + 1 {
      FlagIsKept(ops, states, delay, i, j - 1);
      if Covered(states[j - 1], value, t) {
        var op := ops[j - 1];
        if op.Flag? {
          MemberInjective(value, t, op.value, op.at);
        } else if m in op.taken {
          assert Due(states[j - 1], m, op.at, delay);
          assert Answers(ops, states, delay, value, t, j - 1);
        }
      }
    }
  }

  /** No starvation: a poll that takes all due members nine seconds and `delay` after a flag,
      or later, finds it answered, by itself or by an earlier poll, however many flags came in
      between. */
  lemma AnsweredInTime(ops: seq<Op>, states: seq<Scores>, delay: nat, i: nat, j: nat)
    requires Run(ops, states, delay) && i < j < |ops| && ops[i].Flag?
    requires TakesAllDue(states[j], ops[j], delay) && ops[j].at >= ops[i].at + 9 + delay
    ensures exists k :: i < k <= j && Answers(ops, states, delay, ops[i].value, ops[i].at, k)
  {
    var value, t := ops[i].value, ops[i].at;
    FlagIsKept(ops, states, delay, i, j);
    if Covered(states[j], value, t) {
      assert Due(states[j], Member(value, t), ops[j].at, delay);
      assert Answers(ops, states, delay, value, t, j);
    }
  }

  /** Nine seconds is exact: a second earlier, a flag at the start of its window can still be
      waiting behind one at its end. */
  lemma BoundIsTight(value: string, delay: nat) returns (ops: seq<Op>, states: seq<Scores>)
    requires delay > 0
    ensures Run(ops, states, delay) && |ops| == 3 && ops[0] == Flag(value, 0)
    ensures ops[2].at == 0 + 8 + delay && TakesAllDue(states[2], ops[2], delay)
    ensures forall k :: !Answers(ops, states, delay, value, 0, k)
  {
    var m := Member(value, 0);
    ops := [Flag(value, 0), Flag(value, 9), Poll({}, 8 + delay)];
    states := [map[], map[m := 0], map[m := 9], map[m := 9]];
    assert Member(value, 9) == m;
    assert map[m := 0][m := 9] == map[m := 9];
    assert states[2] - ops[2].taken == states[3];
  }

  /** Debounce: what a poll takes is a member whose every flag so far, since it was last taken,
      is `delay` old. */
  lemma TakenWhenQuiet(ops: seq<Op>, states: seq<Scores>, delay: nat, i: nat, k: nat)
    requires Run(ops, states, delay) && i < k < |ops| && ops[i].Flag? && ops[k].Poll?
    requires Member(ops[i].value, ops[i].at) in ops[k].taken
    requires forall l :: i < l < k && ops[l].Poll? ==> Member(ops[i].value, ops[i].at) !in ops[l].taken
    ensures ops[i].at + delay <= ops[k].at && Answers(ops, states, delay, ops[i].value, ops[i].at, k)
  {
    FlagIsKept(ops, states, delay, i, k);
    assert Step(states[k], ops[k], states[k + 1], delay);
    assert Due(states[k], Member(ops[i].value, ops[i].at), ops[k].at, delay);
  }
}
