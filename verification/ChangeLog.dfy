/** The change log of one table, and what the cache holds of it.

    A log is the sequence of after-images the database emits; position i is the state of
    the table once the first i changes have been committed. */
module ChangeLog {
  import opened Times

  /** One row image.  `deleted` is what ConsumerConfig.IsDeleted reports, `updatedAt` is in
      nanoseconds, `payload` stands for every other column. */
  datatype Row = Row(id: string, key: string, updatedAt: int, deleted: bool, payload: string)

  type Cache = map<string, Row>

  /** Entry s is row r with every column, the time less than a microsecond
      earlier. */
  predicate Keeps(s: Row, r: Row) {
    && s.id == r.id && s.key == r.key && s.deleted == r.deleted && s.payload == r.payload
    && s.updatedAt <= r.updatedAt < s.updatedAt + 1_000
  }

  /** A row as the cache keeps it: through JSON, so at microsecond precision. */
  function Stored(r: Row): (s: Row)
    ensures Keeps(s, r)
    ensures Millis(s.updatedAt) == Millis(r.updatedAt)
  {
    r.(updatedAt := ThroughJson(r.updatedAt))
  }

  /** Position p holds the newest image of its row as of position i. */
  ghost predicate NewestAt(log: seq<Row>, i: nat, p: int) {
    i <= |log| && 0 <= p < i && forall t :: p < t < i ==> log[t].id != log[p].id
  }

  /** Position p holds the newest image of a row that is live as of position i. */
  ghost predicate LiveAt(log: seq<Row>, i: nat, p: int) {
    NewestAt(log, i, p) && !log[p].deleted
  }

  /** A row keeps its key, and every row has one. */
  ghost predicate KeysStable(log: seq<Row>) {
    && (forall i :: 0 <= i < |log| ==> log[i].key != "")
    && (forall i, j :: 0 <= i < |log| && 0 <= j < |log| && log[i].id == log[j].id ==> log[i].key == log[j].key)
  }

  /** No key ever has two live rows, as a unique index over live rows guarantees. */
  ghost predicate OneLiveRowPerKey(log: seq<Row>) {
    forall i: nat, p, q :: LiveAt(log, i, p) && LiveAt(log, i, q) && log[p].key == log[q].key ==> p == q
  }

  /** The key determines the row id, as it does in every table but billable metrics
      (TableCache.KeysContainIds). */
  ghost predicate KeyContainsId(log: seq<Row>) {
    && KeysStable(log)
    && (forall i, j :: 0 <= i < |log| && 0 <= j < |log| && log[i].key == log[j].key ==> log[i].id == log[j].id)
  }

  /** For those tables the unique-index hypothesis comes for free. */
  lemma KeyContainsIdGivesOneLiveRow(log: seq<Row>)
    requires KeyContainsId(log)
    ensures OneLiveRowPerKey(log)
  {
    forall i: nat, p, q | LiveAt(log, i, p) && LiveAt(log, i, q) && log[p].key == log[q].key
      ensures p == q
    {
      assert log[p].id == log[q].id;
    }
  }

  /** Every row mentioned before position i has a newest image there. */
  lemma {:induction false} HasNewest(log: seq<Row>, i: nat, j: nat) returns (p: nat)
    requires j < i <= |log|
    ensures j <= p && NewestAt(log, i, p) && log[p].id == log[j].id
  {
    if i == j + 1 {
      p := j;
    } else if log[i - 1].id == log[j].id {
      p := i - 1;
    } else {
      p := HasNewest(log, i - 1, j);
    }
  }
}
