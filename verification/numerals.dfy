/** Decimal integers as the path languages read them: an optional minus
    sign followed by one or more ASCII digits. */
module Numerals {
  import opened Results

  predicate IsDigit(c: char) {
    '0' <= c <= '9'
  }

  predicate AllDigits(s: string) {
    forall j :: 0 <= j < |s| ==> IsDigit(s[j])
  }

  function DigitValue(c: char): nat
    requires IsDigit(c)
  {
    c as int - '0' as int
  }

  function DigitChar(d: nat): (c: char)
    requires d < 10
    ensures IsDigit(c) && DigitValue(c) == d
  {
    ('0' as int + d) as char
  }

  /** Length of the longest all-digit prefix of `s`: the greedy `\d+`. */
  function DigitRun(s: string): (n: nat)
    ensures n <= |s|
    ensures AllDigits(s[..n])
    ensures n < |s| ==> !IsDigit(s[n])
  {
    if |s| > 0 && IsDigit(s[0]) then 1 + DigitRun(s[1..]) else 0
  }

  /** Value of a digit string, most significant digit first. */
  function DigitsValue(s: string): nat
    requires AllDigits(s)
  {
    if |s| == 0 then 0 else 10 * DigitsValue(s[..|s| - 1]) + DigitValue(s[|s| - 1])
  }

  /** The shortest decimal text of a natural number. */
  function NatText(n: nat): (s: string)
    ensures |s| >= 1 && AllDigits(s)
    ensures DigitsValue(s) == n
  {
    if n < 10 then [DigitChar(n)]
    else
      var s := NatText(n / 10) + [DigitChar(n % 10)];
      assert s[..|s| - 1] == NatText(n / 10);
      s
  }

  /** Python's `int(text)` on the inputs this model admits: an optional
      '-' and at least one digit. Anything else raises ValueError. */
  function ParseInt(text: string): (r: Option<int>)
    ensures r.Some? <==> |text| >= 1 && text != "-"
                         && forall j :: 0 <= j < |text| ==> IsDigit(text[j]) || (j == 0 && text[j] == '-')
    ensures r.Some? && text[0] == '-' ==> r.value <= 0
    ensures r.Some? && text[0] != '-' ==> r.value >= 0
  {
    if |text| > 0 && AllDigits(text) then Some(DigitsValue(text))
    else if |text| > 1 && text[0] == '-' && AllDigits(text[1..]) then Some(-(DigitsValue(text[1..]) as int))
    else None
  }

  /** The canonical text of an integer; reading it back gives the integer. */
  function IntText(i: int): (s: string)
    ensures |s| >= 1
    ensures forall j :: 0 <= j < |s| ==> IsDigit(s[j]) || (j == 0 && s[j] == '-')
    ensures ParseInt(s) == Some(i)
  {
    if i < 0 then
      var s := "-" + NatText(-i);
      assert s[1..] == NatText(-i);
      s
    else NatText(i)
  }

  /** The digit run of `s` is the unique `n` with digits before it and a
      non-digit (or the end) at it. */
  lemma {:induction false} DigitRunIs(s: string, n: nat)
    requires n <= |s| && AllDigits(s[..n])
    requires n < |s| ==> !IsDigit(s[n])
    ensures DigitRun(s) == n
  {
    if n > 0 {
      assert s[..n][0] == s[0];
      assert s[1..][..n - 1] == s[..n][1..];
      DigitRunIs(s[1..], n - 1);
    }
  }

  /** A leading zero does not change the value `int()` reads. */
  lemma LeadingZero(d: string)
    requires |d| >= 1 && AllDigits(d)
    ensures ParseInt("0" + d) == ParseInt(d)
  {
    ZeroDigitsValue(d);
  }

  lemma {:induction false} ZeroDigitsValue(d: string)
    requires AllDigits(d)
    ensures AllDigits("0" + d) && DigitsValue("0" + d) == DigitsValue(d)
    decreases |d|
  {
    var z := "0" + d;
    if |d| > 0 {
      var init := d[..|d| - 1];
      assert z[..|z| - 1] == "0" + init;
      assert z[|z| - 1] == d[|d| - 1];
      ZeroDigitsValue(init);
    }
  }

  /** A minus sign before a digit string negates the value `int()` reads. */
  lemma NegativeText(d: string)
    requires |d| >= 1 && AllDigits(d)
    ensures ParseInt("-" + d) == Some(-ParseInt(d).value)
  {
    assert ("-" + d)[1..] == d;
    assert !IsDigit(("-" + d)[0]);
  }
}
