/** The join over the cached tables and the choice of a filter, together: what a charge's
    default bucket is grouped by. */
module CachedChoice {
  import opened Scan
  import opened Entities
  import opened Filters
  import opened FlatFilterJoin
  import opened Enrichment

  /** The filters of one charge among those of a list that ends in f. */
  lemma LastOfCharge(rows: seq<FlatFilter>, id: string)
    requires rows != []
    ensures OfCharge(rows, id) == OfCharge(rows[..|rows| - 1], id) + Own(rows[|rows| - 1], id)
  {
  }

  function Own(f: FlatFilter, id: string): seq<FlatFilter> {
    if f.chargeId == id then [f] else []
  }

  lemma Resplit(a: seq<FlatFilter>, b: seq<FlatFilter>)
    requires b != []
    ensures (a + b)[..|a + b| - 1] == a + b[..|b| - 1] && (a + b)[|a + b| - 1] == b[|b| - 1]
  {
  }

  lemma Associate(a: seq<FlatFilter>, b: seq<FlatFilter>, c: seq<FlatFilter>, d: seq<FlatFilter>)
    requires d == b + c
    ensures a + b + c == a + d
  {
  }

  lemma {:induction false} OfChargeConcat(a: seq<FlatFilter>, b: seq<FlatFilter>, id: string)
    ensures OfCharge(a + b, id) == OfCharge(a, id) + OfCharge(b, id)
  {
    if b == [] {
      assert a + b == a;
      assert OfCharge(b, id) == [];
    } else {
      OfChargeConcat(a, b[..|b| - 1], id);
      Resplit(a, b);
      LastOfCharge(a + b, id);
      LastOfCharge(b, id);
      Associate(OfCharge(a, id), OfCharge(b[..|b| - 1], id), Own(b[|b| - 1], id), OfCharge(b, id));
    }
  }

  lemma FrontAllOf(rows: seq<FlatFilter>, id: string)
    requires AllOf(rows, id) && rows != []
    ensures AllOf(rows[..|rows| - 1], id) && rows[|rows| - 1].chargeId == id
    ensures rows == rows[..|rows| - 1] + [rows[|rows| - 1]]
  {
    assert rows[|rows| - 1] in rows;
  }

  lemma {:induction false} OfOneCharge(rows: seq<FlatFilter>, id: string, other: string)
    requires AllOf(rows, id)
    ensures OfCharge(rows, other) == if other == id then rows else []
  {
    if rows != [] {
      FrontAllOf(rows, id);
      OfOneCharge(rows[..|rows| - 1], id, other);
      LastOfCharge(rows, other);
    }
  }

  lemma LastGroup(groups: seq<seq<FlatFilter>>, ids: seq<string>, id: string)
    requires AreGroups(groups, ids) && groups != []
    ensures var n := |groups| - 1;
      && (ids[n] != id ==> OfCharge(Flat(groups), id) == OfCharge(Flat(groups[..n]), id))
      && (ids[n] == id && OfCharge(Flat(groups[..n]), id) == [] ==> OfCharge(Flat(groups), id) == groups[n])
  {
    var n := |groups| - 1;
    OfOneCharge(groups[n], ids[n], id);
    OfChargeConcat(Flat(groups[..n]), groups[n], id);
  }

  lemma {:induction false} NoGroupOfOthers(groups: seq<seq<FlatFilter>>, ids: seq<string>, id: string)
    requires AreGroups(groups, ids) && id !in ids
    ensures OfCharge(Flat(groups), id) == []
  {
    if groups != [] {
      NoGroupOfOthers(groups[..|groups| - 1], ids[..|ids| - 1], id);
      LastGroup(groups, ids, id);
    }
  }

  /** Grouping gives back the group of an id that no other group has. */
  lemma {:induction false} GroupOfOne(groups: seq<seq<FlatFilter>>, ids: seq<string>, k: nat)
    requires AreGroups(groups, ids) && k < |ids| && forall i :: 0 <= i < |ids| && i != k ==> ids[i] != ids[k]
    ensures OfCharge(Flat(groups), ids[k]) == groups[k]
  {
    var n, id := |ids| - 1, ids[k];
    LastGroup(groups, ids, id);
    if k < n {
      assert ids[n] != id;
      GroupOfOne(groups[..n], ids[..n], k);
    } else {
      assert id !in ids[..n];
      NoGroupOfOthers(groups[..n], ids[..n], id);
    }
  }

  /** The group of a cached charge in the join is its own rows. */
  lemma GroupOfCharge(v: View, q: Query, c: string)
    requires KeyedView(v) && c in ChargesAt(v, q)
    ensures OfCharge(FlatFilterJoin.Join(v, q), v.charges[c].id) == RowsOfCharge(v, q, v.charges[c])
  {
    var ks := InOrder(ChargesAt(v, q));
    var ids := DistinctCharges(v, q);
    JoinedGroups(v, q, ids);
    var i :| 0 <= i < |ks| && ks[i] == c;
    GroupOfOne(Groups(v, q, Charges(v, q)), ids, i);
  }

  /** k is the least key of s. */
  ghost predicate IsLeast(k: string, s: set<string>) {
    k in s && forall l :: l in s ==> l == k || Before(k, l)
  }

  lemma FirstIsLeast(s: set<string>) returns (k: string)
    requires s != {}
    ensures InOrder(s) != [] && k == InOrder(s)[0] && IsLeast(k, s)
    ensures forall l :: IsLeast(l, s) ==> l == k
  {
    ListsNothing(InOrder(s), s);
    k := InOrder(s)[0];
    assert k in InOrder(s);
    forall l | l in s
      ensures l == k || Before(k, l)
    {
      assert l in InOrder(s);
    }
    forall l | IsLeast(l, s)
      ensures l == k
    {
      if l != k {
        BeforeStrict(l, k);
      }
    }
  }

  /** The bucket of a cached charge none of whose filters match is grouped by the keys of the
      filter with the least key, and by the charge's own keys if it has no filter.  So it is
      grouped by the charge's own keys if and only if that filter has the same ones. */
  lemma DefaultBucketOfCachedCharge(v: View, q: Query, c: string, props: Properties)
    requires KeyedView(v) && c in ChargesAt(v, q)
    requires NoCandidate(RowsOfCharge(v, q, v.charges[c]), props)
    ensures RowsOfCharge(v, q, v.charges[c]) != []
    ensures var keys := Choice(RowsOfCharge(v, q, v.charges[c]), props).pricingGroupKeys;
      var filters := FiltersAt(v, q.org, v.charges[c].id);
      && (filters == {} ==> keys == v.charges[c].pricingGroupKeys)
      && (forall k :: IsLeast(k, filters) ==> keys == v.chargeFilters(v.charges[c].id)[k].pricingGroupKeys)
      && (keys == v.charges[c].pricingGroupKeys <==> forall k :: IsLeast(k, filters) ==> v.chargeFilters(v.charges[c].id)[k].pricingGroupKeys == v.charges[c].pricingGroupKeys)
  {
    var filters := FiltersAt(v, q.org, v.charges[c].id);
    var found := ChargeFilterRows(v, q.org, v.charges[c].id);
    ListsNothing(InOrder(filters), filters);
    if filters != {} {
      var k := FirstIsLeast(filters);
      assert found[0] == v.chargeFilters(v.charges[c].id)[k];
      assert RowsOfCharge(v, q, v.charges[c])[0].pricingGroupKeys == v.chargeFilters(v.charges[c].id)[k].pricingGroupKeys;
    }
  }
}
