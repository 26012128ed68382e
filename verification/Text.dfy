/** Decimal numerals and separators: the parts from which keys are built. */
module Text {
  predicate IsDigit(c: char) {
    '0' <= c <= '9'
  }

  function Digit(d: nat): (c: char)
    requires d < 10
    ensures IsDigit(c) && c as int - '0' as int == d
  {
    ('0' as int + d) as char
  }

  /** "%d" on a non-negative number */
  function Decimal(n: nat): (s: string)
    ensures |s| > 0 && forall i :: 0 <= i < |s| ==> IsDigit(s[i])
  {
    if n < 10 then [Digit(n)] else Decimal(n / 10) + [Digit(n % 10)]
  }

  /** "%d" */
  function Signed(n: int): (s: string) {
    if n < 0 then "-" + Decimal(-n) else Decimal(n)
  }

  function Numeral(s: string): nat
    requires forall i :: 0 <= i < |s| ==> IsDigit(s[i])
  {
    if s == [] then
      0
    else
      assert IsDigit(s[|s| - 1]);
      10 * Numeral(s[..|s| - 1]) + (s[|s| - 1] as int - '0' as int)
  }

  lemma {:induction false} DecimalRoundTrip(n: nat)
    ensures Numeral(Decimal(n)) == n
  {
    if n >= 10 {
      DecimalRoundTrip(n / 10);
      assert Decimal(n)[..|Decimal(n)| - 1] == Decimal(n / 10);
    } else {
      assert Decimal(n)[..0] == [];
    }
  }

  lemma DecimalInjective(a: nat, b: nat)
    requires Decimal(a) == Decimal(b)
    ensures a == b
  {
    DecimalRoundTrip(a);
    DecimalRoundTrip(b);
  }

  /** Two texts that end in a separator-free tail after the separator split alike. */
  lemma LastSeparatorSplits(sep: char, a: string, x: string, b: string, y: string)
    requires sep !in x && sep !in y && a + [sep] + x == b + [sep] + y
    ensures a == b && x == y
  {
    var s := a + [sep] + x;
    assert forall i :: |a| < i < |s| ==> s[i] in x;
    assert forall i :: |b| < i < |s| ==> s[i] in y;
    assert s[|a|] == sep && s[|b|] == sep;
    assert a == s[..|a|] == b;
    assert x == s[|a| + 1..] == y;
  }

  /** The same at the first separator. */
  lemma FirstSeparatorSplits(sep: char, a: string, x: string, b: string, y: string)
    requires sep !in a && sep !in b && a + [sep] + x == b + [sep] + y
    ensures a == b && x == y
  {
    var s := a + [sep] + x;
    assert forall i :: 0 <= i < |a| ==> s[i] in a;
    assert forall i :: 0 <= i < |b| ==> s[i] in b;
    assert s[|a|] == sep && s[|b|] == sep;
    assert a == s[..|a|] == b;
    assert x == s[|a| + 1..] == y;
  }
}
