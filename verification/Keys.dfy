/** Cache keys: components joined by colons, and what a prefix search over them finds. */
module Keys {
  import opened Text

  predicate ColonFree(s: string) {
    ':' !in s
  }

  /** The components with colons in between. */
  function Join(parts: seq<string>): string
    requires parts != []
  {
    if |parts| == 1 then parts[0] else parts[0] + ":" + Join(parts[1..])
  }

  /** The components with a colon after each: what the searches seek. */
  function Prefix(lead: seq<string>): string {
    if lead == [] then "" else lead[0] + ":" + Prefix(lead[1..])
  }

  ghost predicate AllColonFree(parts: seq<string>) {
    forall i :: 0 <= i < |parts| ==> ColonFree(parts[i])
  }

  lemma HeadOfPrefix(a: string, x: string, b: string, y: string)
    requires ColonFree(a) && ColonFree(b)
    ensures a + ":" + x <= b + ":" + y <==> a == b && x <= y
  {
    var p, s := a + ":" + x, b + ":" + y;
    if a == b && x <= y {
      assert s == p + y[|x|..];
    }
    if p <= s {
      var rest := s[|p|..];
      assert s == a + [':'] + (x + rest);
      FirstSeparatorSplits(':', a, x + rest, b, y);
    }
  }

  /** Keys with colon-free components, all but the last, are equal only if the components
      are. */
  lemma {:induction false} JoinInjective(parts: seq<string>, parts': seq<string>)
    requires |parts| == |parts'| > 0 && Join(parts) == Join(parts')
    requires AllColonFree(parts[..|parts| - 1]) && AllColonFree(parts'[..|parts| - 1])
    ensures parts == parts'
  {
    if |parts| > 1 {
      assert ColonFree(parts[..|parts| - 1][0]) && ColonFree(parts'[..|parts| - 1][0]);
      FirstSeparatorSplits(':', parts[0], Join(parts[1..]), parts'[0], Join(parts'[1..]));
      assert parts[1..][..|parts| - 2] == parts[..|parts| - 1][1..];
      assert parts'[1..][..|parts| - 2] == parts'[..|parts| - 1][1..];
      JoinInjective(parts[1..], parts'[1..]);
      assert parts == [parts[0]] + parts[1..];
      assert parts' == [parts'[0]] + parts'[1..];
    }
  }

  /** A prefix search hits exactly the keys whose leading components are those sought. */
  lemma {:induction false} PrefixHits(lead: seq<string>, parts: seq<string>)
    requires |lead| < |parts| && AllColonFree(lead) && AllColonFree(parts[..|lead|])
    ensures Prefix(lead) <= Join(parts) <==> parts[..|lead|] == lead
  {
    if lead != [] {
      assert ColonFree(parts[..|lead|][0]);
      HeadOfPrefix(lead[0], Prefix(lead[1..]), parts[0], Join(parts[1..]));
      assert parts[1..][..|lead| - 1] == parts[..|lead|][1..];
      PrefixHits(lead[1..], parts[1..]);
      assert parts[..|lead|] == [parts[0]] + parts[1..][..|lead| - 1];
      assert lead == [lead[0]] + lead[1..];
    }
  }

  /** No search of one table hits a key of another. */
  lemma OtherTableMisses(lead: seq<string>, parts: seq<string>)
    requires lead != [] && |parts| > 1 && ColonFree(lead[0]) && ColonFree(parts[0]) && lead[0] != parts[0]
    ensures !(Prefix(lead) <= Join(parts))
  {
    HeadOfPrefix(lead[0], Prefix(lead[1..]), parts[0], Join(parts[1..]));
  }

  /** An external id is chosen by the customer and may contain colons.  A search for external
      id e then also hits the rows whose external id continues e with a colon. */
  lemma ExternalIdHits(org: string, e: string, org': string, e': string, id: string)
    requires ColonFree(org) && ColonFree(org') && ColonFree(id)
    ensures Prefix(["sub", org, e]) <= Join(["sub", org', e', id]) <==> org == org' && (e == e' || e + ":" <= e')
  {
    var x, y := e + ":", e' + ":" + id;
    SearchKey(org, e);
    RowKey(org', e', id);
    HeadOfPrefix("sub", org + ":" + x, "sub", org' + ":" + y);
    HeadOfPrefix(org, x, org', y);
    SeparatedPrefix(e, e', id);
  }

  lemma SearchKey(org: string, e: string)
    ensures Prefix(["sub", org, e]) == "sub" + ":" + (org + ":" + (e + ":"))
  {
    var three, two, one := ["sub", org, e], [org, e], [e];
    assert three[1..] == two && two[1..] == one && one[1..] == [];
    assert Prefix(one) == e + ":" + Prefix([]);
    assert Prefix(one) == e + ":";
    assert Prefix(two) == org + ":" + Prefix(one);
    assert Prefix(three) == "sub" + ":" + Prefix(two);
  }

  lemma RowKey(org: string, e: string, id: string)
    ensures Join(["sub", org, e, id]) == "sub" + ":" + (org + ":" + (e + ":" + id))
  {
    var four, three, two, one := ["sub", org, e, id], [org, e, id], [e, id], [id];
    assert four[1..] == three && three[1..] == two && two[1..] == one;
    assert Join(two) == e + ":" + Join(one);
    assert Join(three) == org + ":" + Join(two);
    assert Join(four) == "sub" + ":" + Join(three);
  }

  lemma SeparatedPrefix(e: string, e': string, id: string)
    requires ColonFree(id)
    ensures e + ":" <= e' + ":" + id <==> e == e' || e + ":" <= e'
  {
    var x, y := e + ":", e' + ":" + id;
    if e == e' {
      assert y == x + id;
    }
    if x <= e' {
      assert y == x + (e'[|x|..] + ":" + id);
    }
    if x <= y {
      assert y[|e|] == ':';
      assert forall i :: |e'| < i < |y| ==> y[i] in id;
      assert |e| <= |e'|;
      if |e| == |e'| {
        assert e == y[..|e|] == e';
      } else {
        assert x == y[..|e| + 1] == e'[..|e| + 1];
      }
    }
  }
}
