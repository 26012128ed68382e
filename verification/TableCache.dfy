/** One cached table as the program keeps it: an object whose store the snapshot load and the
    change consumer overwrite entry by entry. */
module TableCache {
  import opened Options
  import opened Times
  import opened ChangeLog
  import Convergence
  import SoftDelete
  import Expiry
  import Entities
  import Keys

  /** ConsumerConfig.Delete: five tables drop the entry, subscriptions keep the terminated
      row for thirty days. */
  datatype OnDelete = Drop | KeepWithTtl

  const TTL_NANOS: int := 30 * 24 * 3600 * 1_000_000_000

  function Apply(mode: OnDelete, c: Cache, r: Row): Cache {
    match mode
    case Drop => Convergence.Apply(c, r)
    case KeepWithTtl => SoftDelete.Apply(c, r)
  }

  /** The rows written one after the other; rows without a key are skipped. */
  function Loaded(c: Cache, rows: seq<Row>): Cache {
    if rows == [] then
      c
    else
      var last := rows[|rows| - 1];
      var before := Loaded(c, rows[..|rows| - 1]);
      if last.key == "" then before else before[last.key := Stored(last)]
  }

  function CountKeyed(rows: seq<Row>): nat {
    if rows == [] then 0
    else CountKeyed(rows[..|rows| - 1]) + if rows[|rows| - 1].key == "" then 0 else 1
  }

  /** Where the rows with a key are. */
  function Keyed(rows: seq<Row>): set<int> {
    set i | 0 <= i < |rows| && rows[i].key != ""
  }

  /** The count is that of the rows with a key. */
  lemma {:induction false} CountKeyedIsCount(rows: seq<Row>)
    ensures CountKeyed(rows) == |Keyed(rows)|
  {
    if rows != [] {
      var n := |rows| - 1;
      CountKeyedIsCount(rows[..n]);
      assert Keyed(rows) == Keyed(rows[..n]) + if rows[n].key != "" then {n} else {};
    } else {
      assert Keyed(rows) == {};
    }
  }

  class Table {
    const mode: OnDelete
    var store: Cache
    /** When the entries that have a time to live expire. */
    var expiresAt: map<string, int>

    /** Only entries of terminated rows expire. */
    ghost predicate Valid()
      reads this
    {
      && (mode.Drop? ==> expiresAt == map[])
      && (forall k :: k in expiresAt ==> k in store && store[k].deleted)
    }

    /** No entry expires before t. */
    ghost predicate NoneExpiresBefore(t: int)
      reads this
    {
      forall k :: k in expiresAt ==> t <= expiresAt[k]
    }

    constructor (mode: OnDelete)
      ensures this.mode == mode && store == map[] && expiresAt == map[] && Valid()
    {
      this.mode := mode;
      store := map[];
      expiresAt := map[];
    }

    method Get(key: string) returns (found: Option<Row>)
      ensures found == if key in store then Some(store[key]) else None
    {
      found := if key in store then Some(store[key]) else None;
    }

    /** setJSON: the entry is replaced and has no expiry any more. */
    method Set(r: Row)
      requires Valid()
      modifies this
      ensures Valid()
      ensures store == old(store)[r.key := Stored(r)] && expiresAt == old(expiresAt) - {r.key}
      ensures r.key in store && Keeps(store[r.key], r)
    {
      store := store[r.key := Stored(r)];
      expiresAt := expiresAt - {r.key};
    }

    method Delete(r: Row, now: int)
      requires Valid() && r.deleted
      modifies this
      ensures Valid()
      ensures mode.Drop? ==> store == old(store) - {r.key} && expiresAt == old(expiresAt) - {r.key}
      ensures mode.KeepWithTtl? ==>
        store == old(store)[r.key := Stored(r)] && expiresAt == old(expiresAt)[r.key := now + 30 * 24 * 3600 * 1_000_000_000]
    {
      if mode == Drop {
        store := store - {r.key};
        expiresAt := expiresAt - {r.key};
      } else {
        store := store[r.key := Stored(r)];
        expiresAt := expiresAt[r.key := now + TTL_NANOS];
      }
    }

    /** The store forgets the entries whose time is up; a table that drops deleted rows has
        none. */
    method Expire(now: int)
      requires Valid()
      modifies this
      ensures Valid()
      ensures Expiry.Expires(old(store), store)
      ensures forall k :: k in old(store) && k !in store ==> k in old(expiresAt) && old(expiresAt)[k] <= now
      ensures forall k :: k in expiresAt ==> k in old(expiresAt) && expiresAt[k] == old(expiresAt)[k] && now < expiresAt[k]
    {
      var gone := set k | k in expiresAt && expiresAt[k] <= now;
      store := store - gone;
      expiresAt := expiresAt - gone;
    }

    /** processRecord: a record that does not decode changes nothing, any other applies
        its row image. */
    method ProcessRecord(record: Option<Row>, now: int)
      requires Valid()
      modifies this
      ensures Valid()
      ensures store == if record.None? then old(store) else Apply(mode, old(store), record.value)
      ensures forall k :: k in expiresAt && (k !in old(expiresAt) || expiresAt[k] != old(expiresAt)[k]) ==>
        mode.KeepWithTtl? && record.Some? && record.value.deleted && k == record.value.key && expiresAt[k] == now + 30 * 24 * 3600 * 1_000_000_000
    {
      if record.None? {
        return;
      }
      var r := record.value;
      if r.key == "" {
        return;
      }
      var cached := Get(r.key);
      if r.deleted {
        if cached.None? {
          return;
        }
        if cached.value.id != r.id {
          return;
        }
        Delete(r, now);
        return;
      }
      if cached.Some? {
        if Millis(cached.value.updatedAt) >= Millis(r.updatedAt) {
          return;
        }
      }
      Set(r);
    }

    /** LoadSnapshot */
    method LoadSnapshot(rows: seq<Row>) returns (count: nat)
      requires Valid()
      modifies this
      ensures Valid() && (old(expiresAt) == map[] ==> expiresAt == map[])
      ensures store == Loaded(old(store), rows) && count == |Keyed(rows)|
    {
      count := 0;
      for i := 0 to |rows|
        invariant Valid() && (old(expiresAt) == map[] ==> expiresAt == map[])
        invariant store == Loaded(old(store), rows[..i]) && count == CountKeyed(rows[..i])
      {
        assert rows[..i + 1][..i] == rows[..i];
        if rows[i].key != "" {
          Set(rows[i]);
          count := count + 1;
        }
      }
      assert rows[..|rows|] == rows;
      CountKeyedIsCount(rows);
    }

    /** The consumer loop over the records of a topic, in a table that drops deleted rows. */
    method ConsumeFrom(records: seq<Option<Row>>, now: nat -> int)
      requires Valid() && mode == Drop
      modifies this
      ensures Valid() && store == Convergence.Replay(old(store), Decoded(records), 0, |Decoded(records)|)
    {
      for i := 0 to |records|
        invariant Valid() && IsReplayed(old(store), records[..i], store)
      {
        ghost var before := store;
        Expire(now(i));
        ProcessRecord(records[i], now(i));
        ReplayOfOneMore(old(store), records, i, before, store);
      }
      assert records[..|records|] == records;
    }

    /** One change met by the consumer of subscriptions: `left` is what expiry leaves. */
    method ConsumeOne(r: Row, now: int, ghost until: int) returns (ghost left: Cache)
      requires Valid() && mode == KeepWithTtl
      modifies this
      ensures Valid() && Expiry.Expires(old(store), left) && store == SoftDelete.Apply(left, r)
      ensures now < until <= now + TTL_NANOS && old(NoneExpiresBefore(until)) ==> left == old(store) && NoneExpiresBefore(until)
    {
      Expire(now);
      left := store;
      ProcessRecord(Some(r), now);
    }

    /** The consumer loop for subscriptions.  now(i) is the clock when record i is met,
        now(|records|) the clock at the end; s and d are the states before and after expiry, at
        each change met.  If the clock stays within one time to live nothing expires. */
    method ConsumeSubscriptionsFrom(records: seq<Option<Row>>, now: nat -> int, ghost since: int)
      returns (ghost s: seq<Cache>, ghost d: seq<Cache>)
      requires Valid() && mode == KeepWithTtl
      modifies this
      ensures Valid() && Expiry.Trace(s, d, Decoded(records), 0) && s[0] == old(store) && d[|Decoded(records)|] == store
      ensures WithinTtl(now, since) && old(NoneExpiresBefore(since + TTL_NANOS)) ==>
        SoftDelete.Trace(s, Decoded(records), 0) && s[|Decoded(records)|] == store
    {
      ghost var log := Decoded(records);
      ghost var until := since + TTL_NANOS;
      ghost var quiet := WithinTtl(now, since) && NoneExpiresBefore(until);
      ghost var start := store;
      s, d := [store], [];
      for i := 0 to |records|
        invariant Valid() && |d| == |Decoded(records[..i])| && PartOfTrace(s, d, log) && s[|d|] == store && s[0] == start
        invariant quiet ==> NoneExpiresBefore(until) && NothingGone(s, d)
      {
        OneMoreRecord(records, i);
        DecodedAt(records, i);
        if records[i].Some? {
          ghost var left := ConsumeOne(records[i].value, now(i), until);
          OneMoreStep(s, d, log, left, store);
          s, d := s + [store], d + [left];
        } else {
          ProcessRecord(None, now(i));
        }
      }
      assert records[..|records|] == records;
      Expire(now(|records|));
      TraceIsComplete(s, d, log, store);
      d := d + [store];
    }
  }

  /** The row images of the records that decode. */
  function Decoded(records: seq<Option<Row>>): seq<Row> {
    if records == [] then
      []
    else
      var last := records[|records| - 1];
      Decoded(records[..|records| - 1]) + if last.Some? then [last.value] else []
  }

  lemma OneMoreRecord(records: seq<Option<Row>>, i: nat)
    requires i < |records|
    ensures Decoded(records[..i + 1]) == Decoded(records[..i]) + if records[i].Some? then [records[i].value] else []
  {
    assert records[..i + 1][..i] == records[..i];
  }

  /** Row images met so far come first. */
  lemma {:induction false} DecodedAt(records: seq<Option<Row>>, i: nat)
    requires i < |records|
    ensures records[i].Some? ==>
      |Decoded(records[..i])| < |Decoded(records)| && Decoded(records)[|Decoded(records[..i])|] == records[i].value
    ensures |Decoded(records[..i + 1])| <= |Decoded(records)|
  {
    if i == |records| - 1 {
      assert records[..i + 1] == records;
    } else {
      var front := records[..|records| - 1];
      DecodedAt(front, i);
      assert front[..i] == records[..i] && front[..i + 1] == records[..i + 1];
    }
  }

  lemma {:induction false} ReplayOfPrefix(c: Cache, log: seq<Row>, more: seq<Row>, i: nat)
    requires i <= |log|
    ensures Convergence.Replay(c, log + more, 0, i) == Convergence.Replay(c, log, 0, i)
  {
    if i > 0 {
      ReplayOfPrefix(c, log, more, i - 1);
    }
  }

  /** c after the replay of all that decodes is d. */
  ghost predicate IsReplayed(c: Cache, records: seq<Option<Row>>, d: Cache) {
    d == Convergence.Replay(c, Decoded(records), 0, |Decoded(records)|)
  }

  lemma ReplayOfOneMore(c: Cache, records: seq<Option<Row>>, i: nat, d: Cache, d': Cache)
    requires i < |records| && IsReplayed(c, records[..i], d)
    requires d' == if records[i].Some? then Convergence.Apply(d, records[i].value) else d
    ensures IsReplayed(c, records[..i + 1], d')
  {
    OneMoreRecord(records, i);
    var met := Decoded(records[..i]);
    if records[i].Some? {
      ReplayOfPrefix(c, met, [records[i].value], |met|);
    } else {
      assert met + [] == met;
    }
  }

  /** The replay takes less than a time to live. */
  ghost predicate WithinTtl(now: nat -> int, since: int) {
    forall i :: since <= now(i) < since + TTL_NANOS
  }

  /** A trace as far as it goes: s is one state ahead of d. */
  ghost predicate PartOfTrace(s: seq<Cache>, d: seq<Cache>, log: seq<Row>) {
    && |s| == |d| + 1 && |d| <= |log|
    && (forall i: nat :: i < |d| ==> s[i + 1] == SoftDelete.Apply(d[i], log[i]))
    && (forall i: nat :: i < |d| ==> Expiry.Expires(s[i], d[i]))
  }

  lemma OneMoreStep(s: seq<Cache>, d: seq<Cache>, log: seq<Row>, left: Cache, after: Cache)
    requires PartOfTrace(s, d, log) && |d| < |log|
    requires Expiry.Expires(s[|d|], left) && after == SoftDelete.Apply(left, log[|d|])
    ensures PartOfTrace(s + [after], d + [left], log)
    ensures NothingGone(s, d) && left == s[|d|] ==> NothingGone(s + [after], d + [left])
  {
  }

  ghost predicate NothingGone(s: seq<Cache>, d: seq<Cache>) {
    |d| <= |s| && forall i :: 0 <= i < |d| ==> s[i] == d[i]
  }

  lemma TraceIsComplete(s: seq<Cache>, d: seq<Cache>, log: seq<Row>, last: Cache)
    requires PartOfTrace(s, d, log) && |d| == |log| && Expiry.Expires(s[|log|], last)
    ensures Expiry.Trace(s, d + [last], log, 0)
    ensures NothingGone(s, d) ==> SoftDelete.Trace(s, log, 0)
  {
    forall i: nat | i < |log|
      ensures Expiry.Step(s, d + [last], log, i) && (NothingGone(s, d) ==> SoftDelete.Step(s, log, i))
    {
      assert s[i + 1] == SoftDelete.Apply(d[i], log[i]);
    }
  }

  /** A replay of the log from position m on, as a replay from m. */
  lemma {:induction false} ReplayOfSuffix(c: Cache, log: seq<Row>, m: nat, i: nat)
    requires m <= i <= |log|
    ensures Convergence.Replay(c, log[m..], 0, i - m) == Convergence.Replay(c, log, m, i)
    decreases i
  {
    if i > m {
      ReplayOfSuffix(c, log, m, i - 1);
    }
  }

  lemma TraceOfSuffix(s: seq<Cache>, d: seq<Cache>, log: seq<Row>, m: nat) returns (s': seq<Cache>, d': seq<Cache>)
    requires m <= |log| && Expiry.Trace(s, d, log[m..], 0)
    ensures Expiry.Trace(s', d', log, m) && s'[m] == s[0] && d'[|log|] == d[|log| - m]
    ensures SoftDelete.Trace(s, log[m..], 0) ==> SoftDelete.Trace(s', log, m) && s'[|log|] == s[|log| - m]
  {
    var empty := seq(m, i => map[]);
    s', d' := empty + s, empty + d;
    forall i: nat | m <= i < |log|
      ensures Expiry.Step(s', d', log, i) && (SoftDelete.Trace(s, log[m..], 0) ==> SoftDelete.Step(s', log, i))
    {
      assert Expiry.Step(s, d, log[m..], i - m);
      assert SoftDelete.Trace(s, log[m..], 0) ==> SoftDelete.Step(s, log[m..], i - m);
    }
    forall i: nat | m <= i <= |log|
      ensures Expiry.Expires(s'[i], d'[i])
    {
      assert Expiry.Expires(s[i - m], d[i - m]);
    }
  }

  /** rows is an answer of the snapshot query as of position n: `wanted` positions in any
      order, possibly repeated. */
  ghost predicate Fetches(rows: seq<Row>, log: seq<Row>, wanted: iset<int>) {
    && (forall p :: p in wanted ==> 0 <= p < |log| && log[p] in rows)
    && (forall r :: r in rows ==> exists p :: p in wanted && 0 <= p < |log| && log[p] == r)
  }

  lemma {:induction false} LoadedHolds(rows: seq<Row>, k: string)
    ensures k in Loaded(map[], rows) <==> k != "" && exists r :: r in rows && r.key == k
    ensures k in Loaded(map[], rows) ==> exists r :: r in rows && r.key == k && Loaded(map[], rows)[k] == Stored(r)
  {
    if rows != [] {
      var last, front := rows[|rows| - 1], rows[..|rows| - 1];
      assert rows == front + [last];
      LoadedHolds(front, k);
    }
  }

  lemma SnapshotIsLive(rows: seq<Row>, log: seq<Row>, n: nat)
    requires n <= |log| && KeysStable(log) && OneLiveRowPerKey(log)
    requires Fetches(rows, log, iset p | LiveAt(log, n, p))
    ensures Convergence.HoldsLive(Loaded(map[], rows), log, n)
  {
    var c := Loaded(map[], rows);
    forall p | LiveAt(log, n, p)
      ensures log[p].key in c && c[log[p].key] == Stored(log[p])
    {
      LoadedHolds(rows, log[p].key);
    }
    forall k | k in c
      ensures exists p {:trigger LiveAt(log, n, p)} :: LiveAt(log, n, p) && log[p].key == k
    {
      LoadedHolds(rows, k);
    }
  }

  lemma SnapshotIsNewest(rows: seq<Row>, log: seq<Row>, n: nat)
    requires n <= |log| && KeyContainsId(log)
    requires Fetches(rows, log, iset p | NewestAt(log, n, p))
    ensures SoftDelete.HoldsNewest(Loaded(map[], rows), log, n)
  {
    var c := Loaded(map[], rows);
    forall p | NewestAt(log, n, p)
      ensures log[p].key in c && c[log[p].key] == Stored(log[p])
    {
      LoadedHolds(rows, log[p].key);
    }
    forall k | k in c
      ensures exists p {:trigger NewestAt(log, n, p)} :: NewestAt(log, n, p) && log[p].key == k
    {
      LoadedHolds(rows, k);
    }
  }

  /** The rows a subscription snapshot contains: those that are not terminated, and of the
      terminated ones those of `recent`, terminated no more than a month ago. */
  ghost function Cut(log: seq<Row>, n: nat, recent: iset<int>): iset<int> {
    iset p | NewestAt(log, n, p) && (p in recent || !log[p].deleted)
  }

  lemma SnapshotServes(rows: seq<Row>, log: seq<Row>, n: nat, recent: iset<int>)
    requires n <= |log| && KeyContainsId(log) && Fetches(rows, log, Cut(log, n, recent))
    ensures Expiry.ServesNewest(Loaded(map[], rows), log, n)
  {
    var c := Loaded(map[], rows);
    forall p | NewestAt(log, n, p) && !log[p].deleted
      ensures log[p].key in c && c[log[p].key] == Stored(log[p])
    {
      assert p in Cut(log, n, recent);
      LoadedHolds(rows, log[p].key);
    }
    forall k | k in c
      ensures exists p {:trigger NewestAt(log, n, p)} :: NewestAt(log, n, p) && log[p].key == k && c[k] == Stored(log[p])
    {
      LoadedHolds(rows, k);
      var r :| r in rows && r.key == k && c[k] == Stored(r);
      var p :| p in Cut(log, n, recent) && 0 <= p < |log| && log[p] == r;
    }
  }

  /** The log of a table other than the metrics': row images under the keys of their entities,
      each row under one key. */
  ghost predicate IsLogOf(log: seq<Row>, entities: seq<Entities.Entity>) {
    && |log| == |entities| && KeysStable(log)
    && forall i :: 0 <= i < |log| ==>
      log[i].id == entities[i].id && log[i].key == Entities.KeyOf(entities[i]) && !entities[i].Metric? && Keys.ColonFree(entities[i].id)
  }

  /** Such a log meets the hypothesis that keys contain ids. */
  lemma KeysContainIds(log: seq<Row>, entities: seq<Entities.Entity>)
    requires IsLogOf(log, entities)
    ensures KeyContainsId(log)
  {
    forall i, j | 0 <= i < |log| && 0 <= j < |log| && log[i].key == log[j].key
      ensures log[i].id == log[j].id
    {
      Entities.EqualKeysEqualIds(entities[i], entities[j]);
    }
  }

  /** Start-up end to end for a table that drops deleted rows: a snapshot as of n, then the
      change log from m, leaves exactly the live rows.  Records that do not decode may come in
      between. */
  method WarmUp(table: Table, rows: seq<Row>, records: seq<Option<Row>>, ghost log: seq<Row>, ghost m: nat, ghost n: nat, now: nat -> int)
    returns (count: nat)
    requires table.Valid() && table.mode == Drop && table.store == map[] && m <= n <= |log| && Decoded(records) == log[m..]
    requires KeysStable(log) && OneLiveRowPerKey(log) && Convergence.LastWriteIsNewest(log)
    requires Fetches(rows, log, iset p | LiveAt(log, n, p))
    modifies table
    ensures table.Valid() && Convergence.HoldsLive(table.store, log, |log|) && Convergence.KeepsLive(table.store, log, |log|)
  {
    count := table.LoadSnapshot(rows);
    SnapshotIsLive(rows, log, n);
    ghost var s := Convergence.TraceOf(table.store, log, m);
    ReplayOfSuffix(table.store, log, m, |log|);
    table.ConsumeFrom(records, now);
    Convergence.SnapshotThenReplay(s, log, m, n);
    Convergence.HoldsLiveKeeps(table.store, log, |log|);
  }

  /** The same for subscriptions: every row that is not terminated is served by its newest
      image and nothing stale is, whatever terminated rows the snapshot contains; and if it
      contains them all and the replay takes less than a time to live, they are all there too. */
  method WarmUpSubscriptions(table: Table, rows: seq<Row>, records: seq<Option<Row>>, ghost log: seq<Row>, ghost m: nat, ghost n: nat,
                             ghost recent: iset<int>, now: nat -> int, ghost since: int)
    returns (count: nat)
    requires table.Valid() && table.mode == KeepWithTtl && table.store == map[] && table.expiresAt == map[]
    requires m <= n <= |log| && Decoded(records) == log[m..] && KeyContainsId(log) && Expiry.LiveRule(log)
    requires Fetches(rows, log, Cut(log, n, recent))
    modifies table
    ensures table.Valid() && IsServed(table.store, log)
    ensures WithinTtl(now, since) && SoftDelete.TerminationRule(log) && AllRecent(log, n, recent) ==> IsComplete(table.store, log)
  {
    count := table.LoadSnapshot(rows);
    ghost var s, d := table.ConsumeSubscriptionsFrom(records, now, since);
    WarmedUp(rows, s, d, log, m, n, recent, Decoded(records));
  }

  /** Every row that is not terminated is served by its newest image, column by column, and
      nothing stale is. */
  ghost predicate IsServed(c: Cache, log: seq<Row>) {
    Expiry.ServesNewest(c, log, |log|) && Expiry.KeepsServed(c, log, |log|)
  }

  /** The newest image of every row is there, column by column, and nothing else. */
  ghost predicate IsComplete(c: Cache, log: seq<Row>) {
    SoftDelete.HoldsNewest(c, log, |log|) && SoftDelete.KeepsNewest(c, log, |log|)
  }

  ghost predicate AllRecent(log: seq<Row>, n: nat, recent: iset<int>) {
    forall p :: NewestAt(log, n, p) ==> p in recent
  }

  /** What the trace of a start-up ends in. */
  lemma WarmedUp(rows: seq<Row>, s: seq<Cache>, d: seq<Cache>, log: seq<Row>, m: nat, n: nat, recent: iset<int>, tail: seq<Row>)
    requires m <= n <= |log| && KeyContainsId(log) && Expiry.LiveRule(log) && Fetches(rows, log, Cut(log, n, recent))
    requires tail == log[m..] && Expiry.Trace(s, d, tail, 0) && s[0] == Loaded(map[], rows)
    ensures IsServed(d[|tail|], log)
    ensures SoftDelete.Trace(s, tail, 0) && SoftDelete.TerminationRule(log) && AllRecent(log, n, recent) ==> IsComplete(s[|tail|], log)
  {
    SnapshotServes(rows, log, n, recent);
    var s', d' := TraceOfSuffix(s, d, log, m);
    Served(s', d', log, m, n);
    if SoftDelete.Trace(s, tail, 0) && SoftDelete.TerminationRule(log) && AllRecent(log, n, recent) {
      AllThere(rows, s', log, m, n, recent);
    }
  }

  lemma AllThere(rows: seq<Row>, s: seq<Cache>, log: seq<Row>, m: nat, n: nat, recent: iset<int>)
    requires m <= n <= |log| && KeyContainsId(log) && SoftDelete.TerminationRule(log) && AllRecent(log, n, recent)
    requires Fetches(rows, log, Cut(log, n, recent)) && SoftDelete.Trace(s, log, m) && s[m] == Loaded(map[], rows)
    ensures IsComplete(s[|log|], log)
  {
    assert Cut(log, n, recent) == iset p | NewestAt(log, n, p);
    SnapshotIsNewest(rows, log, n);
    SoftDelete.SnapshotThenReplay(s, log, m, n);
    SoftDelete.HoldsNewestKeeps(s[|log|], log, |log|);
  }

  lemma Served(s: seq<Cache>, d: seq<Cache>, log: seq<Row>, m: nat, n: nat)
    requires Expiry.Trace(s, d, log, m) && KeyContainsId(log) && Expiry.LiveRule(log) && m <= n <= |log| && Expiry.ServesNewest(s[m], log, n)
    ensures IsServed(d[|log|], log)
  {
    Expiry.PartialSnapshotThenReplay(s, d, log, m, n);
    Expiry.ServesNewestKeeps(d[|log|], log, |log|);
  }
}
