/** Decimal digit strings: Python's `int()` on a run of ASCII digits and `str()` on a
    non-negative integer. */
module Decimal {
  import opened Text

  predicate IsDigits(s: string) {
    forall k :: 0 <= k < |s| ==> IsDigit(s[k])
  }

  function DigitValue(c: char): (d: nat)
    requires IsDigit(c)
    ensures d < 10
  {
    (c as int) - ('0' as int)
  }

  function DigitChar(d: nat): (c: char)
    requires d < 10
    ensures IsDigit(c) && DigitValue(c) == d
  {
    (('0' as int) + d) as char
  }

  /** `int(ds)`: leading zeros are allowed and add nothing. */
  function Value(ds: string): nat
    requires IsDigits(ds)
  {
    if ds == [] then 0 else Value(ds[..|ds| - 1]) * 10 + DigitValue(ds[|ds| - 1])
  }

  /** `str(n)`: the shortest decimal spelling of `n`, so no leading zero except for 0
      itself; reading it back with `int()` gives `n` again. */
  function ToDecimal(n: nat): (s: string)
    ensures |s| >= 1 && IsDigits(s)
    ensures s[0] != '0' || s == "0"
    ensures Value(s) == n
  {
    if n < 10 then [DigitChar(n)]
    else
      var init := ToDecimal(n / 10);
      assert (init + [DigitChar(n % 10)])[..|init|] == init;
      init + [DigitChar(n % 10)]
  }

  /** `str` never spells two numbers the same way. */
  lemma ToDecimalInjective(a: nat, b: nat)
    requires ToDecimal(a) == ToDecimal(b)
    ensures a == b
  {
  }

  /** A digit string with a non-zero leading digit is worth at least 1. */
  lemma {:induction false} ValuePositive(ds: string)
    requires IsDigits(ds) && |ds| >= 1 && ds[0] != '0'
    ensures Value(ds) >= 1
  {
    if |ds| > 1 {
      ValuePositive(ds[..|ds| - 1]);
    }
  }

  /** The other half of the round trip: a canonical digit string (no leading zero) is
      exactly what `str` produces for its value. */
  lemma {:induction false} ToDecimalOfValue(ds: string)
    requires IsDigits(ds) && |ds| >= 1
    requires ds[0] != '0' || ds == "0"
    ensures ToDecimal(Value(ds)) == ds
  {
    var n := Value(ds);
    if |ds| == 1 {
      assert ds == [ds[0]];
    } else {
      var init := ds[..|ds| - 1];
      ValuePositive(init);
      assert n >= 10;
      assert n / 10 == Value(init) && n % 10 == DigitValue(ds[|ds| - 1]);
      ToDecimalOfValue(init);
      assert ds == init + [ds[|ds| - 1]];
    }
  }
}
