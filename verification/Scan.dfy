/** Iteration over the key-value store: keys in ascending order, from a prefix on, for as
    long as they have that prefix. */
module Scan {
  import opened Options

  /** a comes strictly before b in the store's order. */
  predicate Before(a: string, b: string) {
    b != [] && (a == [] || a[0] < b[0] || (a[0] == b[0] && Before(a[1..], b[1..])))
  }

  /** a and b agree up to n, where a ends or has the smaller character. */
  predicate DifferAt(a: string, b: string, n: nat) {
    n <= |a| && n < |b| && a[..n] == b[..n] && (n == |a| || a[n] < b[n])
  }

  /** The order is the lexicographic one: at the first difference the smaller character comes
      first, and a text comes before those that continue it. */
  lemma BeforeIsLexicographic(a: string, b: string)
    ensures Before(a, b) <==> exists n: nat :: DifferAt(a, b, n)
  {
    if Before(a, b) {
      var n := FirstDifference(a, b);
    }
    if n: nat :| DifferAt(a, b, n) {
      DifferenceDecides(a, b, n);
    }
  }

  lemma {:induction false} FirstDifference(a: string, b: string) returns (n: nat)
    requires Before(a, b)
    ensures DifferAt(a, b, n)
  {
    if a == [] || a[0] < b[0] {
      n := 0;
    } else {
      var m := FirstDifference(a[1..], b[1..]);
      n := m + 1;
      assert a[..n] == [a[0]] + a[1..][..m] && b[..n] == [b[0]] + b[1..][..m];
    }
  }

  lemma {:induction false} DifferenceDecides(a: string, b: string, n: nat)
    requires DifferAt(a, b, n)
    ensures Before(a, b)
  {
    if n > 0 {
      assert a[0] == a[..n][0] == b[..n][0] == b[0];
      assert a[1..][..n - 1] == a[..n][1..] && b[1..][..n - 1] == b[..n][1..];
      DifferenceDecides(a[1..], b[1..], n - 1);
    }
  }

  lemma {:induction false} BeforeStrict(a: string, b: string)
    requires Before(a, b)
    ensures a != b && !Before(b, a)
  {
    if a != [] && a[0] == b[0] {
      BeforeStrict(a[1..], b[1..]);
    }
  }

  lemma {:induction false} BeforeTransitive(a: string, b: string, c: string)
    requires Before(a, b) && Before(b, c)
    ensures Before(a, c)
  {
    if a != [] && a[0] == b[0] == c[0] {
      BeforeTransitive(a[1..], b[1..], c[1..]);
    }
  }

  lemma {:induction false} BeforeTotal(a: string, b: string)
    ensures a == b || Before(a, b) || Before(b, a)
  {
    if a != [] && b != [] && a[0] == b[0] {
      BeforeTotal(a[1..], b[1..]);
      assert a == [a[0]] + a[1..] && b == [b[0]] + b[1..];
    }
  }

  /** The keys with a given prefix are contiguous, and the prefix itself starts them. */
  lemma {:induction false} PrefixedKeysAreContiguous(prefix: string, k: string, k': string)
    requires prefix <= k' && !Before(k, prefix) && (k == k' || Before(k, k'))
    ensures prefix <= k
  {
    if prefix != [] {
      assert prefix[0] == k'[0] == k[0];
      assert k' == [k'[0]] + k'[1..] && prefix == [prefix[0]] + prefix[1..] && k == [k[0]] + k[1..];
      assert prefix[1..] <= k'[1..];
      PrefixedKeysAreContiguous(prefix[1..], k[1..], k'[1..]);
    }
  }

  lemma {:induction false} PrefixNotAfter(prefix: string, k: string)
    requires prefix <= k
    ensures !Before(k, prefix)
  {
    if prefix != [] {
      assert prefix[1..] <= k[1..];
      PrefixNotAfter(prefix[1..], k[1..]);
    }
  }

  ghost predicate Ascending(ks: seq<string>) {
    forall i, j :: 0 <= i < j < |ks| ==> Before(ks[i], ks[j])
  }

  /** ks lists the keys of s in store order. */
  ghost predicate Lists(ks: seq<string>, s: set<string>) {
    Ascending(ks) && forall k :: k in ks <==> k in s
  }

  /** There is only one such list. */
  lemma {:induction false} ListingIsUnique(ks: seq<string>, ls: seq<string>, s: set<string>)
    requires Lists(ks, s) && Lists(ls, s)
    ensures ks == ls
    decreases |ks|
  {
    ListsNothing(ks, s);
    ListsNothing(ls, s);
    if ks != [] {
      assert ks[0] in ls && ls[0] in ks;
      if ks[0] != ls[0] {
        var i :| 0 < i < |ls| && ls[i] == ks[0];
        var j :| 0 < j < |ks| && ks[j] == ls[0];
        BeforeStrict(ks[0], ks[j]);
      }
      TailLists(ks, s);
      TailLists(ls, s);
      ListingIsUnique(ks[1..], ls[1..], s - {ks[0]});
      assert ks == [ks[0]] + ks[1..] && ls == [ls[0]] + ls[1..];
    }
  }

  /** And there always is one. */
  lemma {:induction false} ListingExists(s: set<string>) returns (ks: seq<string>)
    ensures Lists(ks, s)
    decreases s
  {
    if s == {} {
      ks := [];
    } else {
      var k :| k in s;
      var ls := ListingExists(s - {k});
      ks := Inserted(ls, k, s - {k});
      assert s == s - {k} + {k};
    }
  }

  lemma {:induction false} Inserted(ls: seq<string>, k: string, s: set<string>) returns (ks: seq<string>)
    requires Lists(ls, s) && k !in s
    ensures Lists(ks, s + {k})
    decreases |ls|
  {
    ListsNothing(ls, s);
    if ls == [] {
      ks := [k];
    } else {
      BeforeTotal(k, ls[0]);
      TailLists(ls, s);
      assert ls[0] in s;
      var tail := ls;
      var first := k;
      if Before(ls[0], k) {
        first := ls[0];
        tail := Inserted(ls[1..], k, s - {ls[0]});
      }
      ks := [first] + tail;
      forall l | l in tail
        ensures Before(first, l)
      {
        if first == k && l != ls[0] {
          BeforeTransitive(k, ls[0], l);
        } else if first == ls[0] && l != k {
          assert l in ls[1..];
        }
      }
    }
  }

  lemma SomeListing(s: set<string>)
    ensures exists ks :: Lists(ks, s)
  {
    var ks := ListingExists(s);
  }

  /** The keys of a set in store order. */
  ghost function InOrder(s: set<string>): (ks: seq<string>)
    ensures Lists(ks, s)
  {
    SomeListing(s);
    var ks :| Lists(ks, s); ks
  }

  lemma ListsNothing(ks: seq<string>, s: set<string>)
    requires Lists(ks, s)
    ensures ks == [] <==> s == {}
  {
    if ks != [] {
      assert ks[0] in s;
    }
    if s != {} {
      var k :| k in s;
      assert k in ks;
    }
  }

  lemma TailLists(ks: seq<string>, s: set<string>)
    requires Lists(ks, s) && ks != []
    ensures Lists(ks[1..], s - {ks[0]})
  {
    forall k | k in ks[1..]
      ensures k != ks[0]
    {
      BeforeStrict(ks[0], k);
    }
  }

  /** The least key of s satisfying `from`: at or after it (Seek), or strictly after it
      (Next). */
  predicate Admitted(k: string, from: string, seek: bool) {
    Before(from, k) || (seek && k == from)
  }

  method Least(s: set<string>, from: string, seek: bool) returns (least: Option<string>)
    ensures least.None? ==> forall k :: k in s ==> !Admitted(k, from, seek)
    ensures least.Some? ==> least.value in s && Admitted(least.value, from, seek)
    ensures least.Some? ==> forall k :: k in s && Admitted(k, from, seek) ==> k == least.value || Before(least.value, k)
  {
    least := None;
    var rest := s;
    while rest != {}
      invariant rest <= s
      invariant least.None? ==> forall k :: k in s - rest ==> !Admitted(k, from, seek)
      invariant least.Some? ==> least.value in s && Admitted(least.value, from, seek)
      invariant least.Some? ==> forall k :: k in s - rest && Admitted(k, from, seek) ==> k == least.value || Before(least.value, k)
      decreases rest
    {
      var k :| k in rest;
      rest := rest - {k};
      if Admitted(k, from, seek) {
        if least.None? {
          least := Some(k);
        } else if Before(k, least.value) {
          var previous := least.value;
          least := Some(k);
          forall l | l in s - rest && Admitted(l, from, seek)
            ensures l == k || Before(k, l)
          {
            if l != k && l != previous {
              BeforeTransitive(k, previous, l);
            }
          }
        } else {
          BeforeTotal(k, least.value);
        }
      }
    }
  }

  function Matching<V>(store: map<string, V>, prefix: string): set<string> {
    set k | k in store && prefix <= k
  }

  /** The values at the given keys. */
  function At<V>(store: map<string, V>, ks: seq<string>): (rows: seq<V>)
    requires forall k :: k in ks ==> k in store
    ensures |rows| == |ks| && forall i :: 0 <= i < |ks| ==> rows[i] == store[ks[i]]
  {
    seq(|ks|, i requires 0 <= i < |ks| => assert ks[i] in ks; store[ks[i]])
  }

  lemma AppendLists(ks: seq<string>, k: string)
    requires Ascending(ks) && forall l :: l in ks ==> Before(l, k)
    ensures Ascending(ks + [k])
  {
  }

  /** searchJSON: seek the prefix, then go on to the next key while it has the prefix.  The
      rows come back in key order, and they are exactly those under the prefix. */
  method Search<V>(store: map<string, V>, prefix: string) returns (rows: seq<V>)
    ensures rows == At(store, InOrder(Matching(store, prefix)))
  {
    rows := [];
    ghost var ks: seq<string> := [];
    ghost var left := store.Keys;
    var cursor := Least(store.Keys, prefix, true);
    forall k | k in store && prefix <= k
      ensures Admitted(k, prefix, true)
    {
      PrefixNotAfter(prefix, k);
      BeforeTotal(k, prefix);
    }
    while cursor.Some? && prefix <= cursor.value
      invariant Ascending(ks) && forall k :: k in ks ==> k in store && prefix <= k
      invariant forall k :: k in store && prefix <= k && k !in ks ==> cursor.Some? && (k == cursor.value || Before(cursor.value, k))
      invariant cursor.Some? ==> cursor.value in store && Admitted(cursor.value, prefix, true) && forall k :: k in ks ==> Before(k, cursor.value)
      invariant rows == At(store, ks)
      invariant forall k :: k in left <==> k in store && k !in ks
      decreases left
    {
      var k := cursor.value;
      assert k !in ks by {
        if k in ks {
          BeforeStrict(k, k);
        }
      }
      AppendLists(ks, k);
      rows := rows + [store[k]];
      ks := ks + [k];
      left := left - {k};
      cursor := Least(store.Keys, k, false);
      if cursor.Some? {
        forall l | l in ks
          ensures Before(l, cursor.value)
        {
          if l != k {
            BeforeTransitive(l, k, cursor.value);
          }
        }
        if prefix != k {
          BeforeTransitive(prefix, k, cursor.value);
        }
      }
    }
    forall k | k in store && prefix <= k
      ensures k in ks
    {
      if k !in ks {
        AdmittedNotBefore(cursor.value, prefix);
        PrefixedKeysAreContiguous(prefix, cursor.value, k);
      }
    }
    ListingIsUnique(ks, InOrder(Matching(store, prefix)), Matching(store, prefix));
  }

  lemma AdmittedNotBefore(k: string, from: string)
    requires Admitted(k, from, true)
    ensures !Before(k, from)
  {
    if Before(from, k) {
      BeforeStrict(from, k);
    } else if Before(k, from) {
      BeforeStrict(k, from);
    }
  }
}
