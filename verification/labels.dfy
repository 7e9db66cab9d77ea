/**
  Centrality class labels `C{lo}-{hi}`, built from integer percentages as the
  script's f-string does, and the fact that distinct cut pairs get distinct labels.
 */
module Labels {

  function DigitChar(d: nat): (c: char)
    requires d < 10
    ensures '0' <= c <= '9'
  {
    (48 + d) as char
  }

  function DigitValue(c: char): nat
    requires '0' <= c <= '9'
  {
    c as nat - 48
  }

  /** Python's `str` of a non-negative int: decimal digits, no leading zeros. */
  function Decimal(n: nat): (s: string)
    ensures 1 <= |s|
    ensures |s| == 1 <==> n < 10
    ensures forall i :: 0 <= i < |s| ==> '0' <= s[i] <= '9'
  {
    if n < 10 then [DigitChar(n)] else Decimal(n / 10) + [DigitChar(n % 10)]
  }

  /** Reading a string of decimal digits back as a number. */
  function ParseDecimal(s: string): nat
    requires forall i :: 0 <= i < |s| ==> '0' <= s[i] <= '9'
  {
    if |s| == 0 then 0 else ParseDecimal(s[..|s| - 1]) * 10 + DigitValue(s[|s| - 1])
  }

  /** The decimal rendering reads back as the number it renders. */
  lemma {:induction false} DecimalRoundTrip(n: nat)
    ensures ParseDecimal(Decimal(n)) == n
  {
    var s := Decimal(n);
    if n >= 10 {
      DecimalRoundTrip(n / 10);
      assert s[..|s| - 1] == Decimal(n / 10);
    }
  }

  lemma DecimalInjective(a: nat, b: nat)
    requires Decimal(a) == Decimal(b)
    ensures a == b
  {
    DecimalRoundTrip(a);
    DecimalRoundTrip(b);
  }

  /** The class label of the cut pair (lo %, hi %). */
  function BinLabel(lo: nat, hi: nat): string {
    "C" + Decimal(lo) + "-" + Decimal(hi)
  }

  /** Different cut pairs never share a label, since digits never contain the dash. */
  lemma LabelInjective(a: nat, b: nat, c: nat, d: nat)
    requires BinLabel(a, b) == BinLabel(c, d)
    ensures a == c && b == d
  {
    var x, y, x', y' := Decimal(a), Decimal(b), Decimal(c), Decimal(d);
    var s := BinLabel(a, b);
    assert s == "C" + x + "-" + y && s == "C" + x' + "-" + y';
    assert s[1 + |x|] == '-' && s[1 + |x'|] == '-';
    assert |x| == |x'|;
    assert x == s[1..1 + |x|] == x';
    assert y == s[2 + |x|..] == y';
    DecimalInjective(a, c);
    DecimalInjective(b, d);
  }
}
