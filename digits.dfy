/**
 * Decimal numerals as they appear in the element ids of a block
 * (`jobTitle3`) and in its form heading (`Work Experience 3`).
 */
module Digits {

  predicate IsDigit(c: char)
  {
    '0' <= c <= '9'
  }

  function DigitChar(d: nat): (c: char)
    requires d < 10
    ensures IsDigit(c)
  {
    ['0', '1', '2', '3', '4', '5', '6', '7', '8', '9'][d]
  }

  function DigitValue(c: char): nat
    requires IsDigit(c)
  {
    (c as int - '0' as int) as nat
  }

  /** The decimal numeral of `n`, without leading zeros, as template interpolation writes it. */
  function NatToString(n: nat): (s: string)
    ensures s != []
    ensures forall i :: 0 <= i < |s| ==> IsDigit(s[i])
  {
    if n < 10 then [DigitChar(n)] else NatToString(n / 10) + [DigitChar(n % 10)]
  }

  /** Reads a string of digits as a number. */
  function ParseDigits(s: string): nat
    requires forall i :: 0 <= i < |s| ==> IsDigit(s[i])
  {
    if s == [] then 0 else ParseDigits(s[..|s| - 1]) * 10 + DigitValue(s[|s| - 1])
  }

  lemma DigitRoundTrip(d: nat)
    requires d < 10
    ensures DigitValue(DigitChar(d)) == d
  {
  }

  /** Reading back the numeral of `n` gives `n`. */
  lemma {:induction false} ParseNatToString(n: nat)
    ensures ParseDigits(NatToString(n)) == n
  {
    var s := NatToString(n);
    if n < 10 {
      DigitRoundTrip(n);
      assert s[..|s| - 1] == [];
    } else {
      assert s[..|s| - 1] == NatToString(n / 10);
      ParseNatToString(n / 10);
      DigitRoundTrip(n % 10);
    }
  }

  /** Different numbers have different numerals. */
  lemma NatToStringInjective(m: nat, n: nat)
    requires NatToString(m) == NatToString(n)
    ensures m == n
  {
    ParseNatToString(m);
    ParseNatToString(n);
  }

  /** A name that can prefix a numeral in an element id: not empty and not ending in a digit. */
  predicate IdPrefix(name: string)
  {
    name != [] && !IsDigit(name[|name| - 1])
  }

  /** The id of an element: its field name followed by the number of its block. */
  function ElementId(name: string, n: nat): (id: string)
    ensures |id| > |name| && id[..|name|] == name
  {
    name + NatToString(n)
  }

  /**
   * Element ids are unambiguous: one id comes from one field name and one
   * block number, because the numeral is the id's maximal run of trailing digits.
   */
  lemma ElementIdInjective(a: string, m: nat, b: string, n: nat)
    requires IdPrefix(a) && IdPrefix(b)
    requires ElementId(a, m) == ElementId(b, n)
    ensures a == b && m == n
  {
    var s := ElementId(a, m);
    var sm, sn := NatToString(m), NatToString(n);
    assert s == a + sm == b + sn;
    assert |a| == |b|;
    assert a == s[..|a|] == b;
    assert sm == s[|a|..] == sn;
    NatToStringInjective(m, n);
  }
}
