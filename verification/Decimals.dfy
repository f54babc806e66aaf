/** Decimal numerals as Python's str writes them and int reads them back. */
module Decimals {
  import opened Wrappers

  function Digit(d: nat): char
    requires d < 10
  {
    '0' + d as char
  }

  predicate IsDigit(c: char) {
    '0' <= c <= '9'
  }

  function Decimal(n: nat): (s: string)
    ensures s != "" && forall k :: 0 <= k < |s| ==> IsDigit(s[k])
  {
    if n < 10 then [Digit(n)] else Decimal(n / 10) + [Digit(n % 10)]
  }

  /** The number a string of digits denotes; leading zeros are allowed. */
  function Numeral(s: string): Option<nat> {
    if s == "" then None
    else if !IsDigit(s[|s| - 1]) then None
    else
      var last := (s[|s| - 1] - '0') as nat;
      if |s| == 1 then Some(last)
      else
        var rest :- Numeral(s[..|s| - 1]);
        Some(10 * rest + last)
  }

  lemma {:induction false} NumeralOfDecimal(n: nat)
    ensures Numeral(Decimal(n)) == Some(n)
  {
    var s := Decimal(n);
    if n >= 10 {
      NumeralOfDecimal(n / 10);
      assert s[..|s| - 1] == Decimal(n / 10);
    }
  }

  lemma DecimalInjective(m: nat, n: nat)
    requires Decimal(m) == Decimal(n)
    ensures m == n
  {
    NumeralOfDecimal(m);
    NumeralOfDecimal(n);
  }

  /** A numeral after a last separator can be read off: separators do not occur in numerals. */
  lemma LastField(before: string, m: nat, before': string, n: nat, separator: char)
    requires !IsDigit(separator)
    requires before + [separator] + Decimal(m) == before' + [separator] + Decimal(n)
    ensures m == n && before == before'
  {
    var s, t := before + [separator] + Decimal(m), before' + [separator] + Decimal(n);
    var i, j := |s| - |Decimal(m)| - 1, |t| - |Decimal(n)| - 1;
    assert s[i] == separator && t[j] == separator;
    assert forall k :: i < k < |s| ==> IsDigit(s[k]);
    assert forall k :: j < k < |t| ==> IsDigit(t[k]);
    assert i == j;
    assert Decimal(m) == s[i + 1..] && Decimal(n) == t[j + 1..];
    DecimalInjective(m, n);
    assert before == s[..i] && before' == t[..j];
  }
}
