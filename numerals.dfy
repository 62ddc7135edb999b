/** The part of JavaScript's `parseInt(s)` (radix 10) that the admin table uses
    to decide whether a count is positive, and decimal rendering of naturals. */
module Numerals {
  import opened Wrappers

  predicate IsDigit(c: char) {
    '0' <= c <= '9'
  }

  predicate AllDigits(s: string) {
    forall i :: 0 <= i < |s| ==> IsDigit(s[i])
  }

  function DigitValue(c: char): nat
    requires IsDigit(c)
  {
    c as int - '0' as int
  }

  function DigitChar(d: nat): char
    requires d < 10
  {
    (d + '0' as int) as char
  }

  /** The longest prefix of `s` made of decimal digits. */
  function DigitPrefix(s: string): (r: string)
    ensures |r| <= |s| && r == s[..|r|]
    ensures AllDigits(r)
    ensures |r| < |s| ==> !IsDigit(s[|r|])
  {
    if s != [] && IsDigit(s[0]) then [s[0]] + DigitPrefix(s[1..]) else []
  }

  /** Value of a string of decimal digits, most significant first. */
  function DigitsValue(ds: string): nat
    requires AllDigits(ds)
  {
    if ds == [] then 0 else DigitsValue(ds[..|ds| - 1]) * 10 + DigitValue(ds[|ds| - 1])
  }

  /** `parseInt(s)`: an optional sign, then the longest run of decimal digits;
      `None` (NaN) when there is no digit. */
  function ParseInt(s: string): (r: Option<int>)
    ensures r.Some? <==>
      (s != [] && IsDigit(s[0])) || (|s| > 1 && (s[0] == '-' || s[0] == '+') && IsDigit(s[1]))
    ensures r.Some? && r.value < 0 ==> s[0] == '-'
    ensures r.Some? && s[0] != '-' ==> r.value >= 0
  {
    var negative := s != [] && s[0] == '-';
    var body := if s != [] && (s[0] == '-' || s[0] == '+') then s[1..] else s;
    var ds := DigitPrefix(body);
    var v: int := if ds == [] then 0 else DigitsValue(ds);
    if ds == [] then None else Some(if negative then -v else v)
  }

  /** Decimal rendering of `n` without leading zeros (`String(n)`). */
  function Show(n: nat): (r: string)
    ensures r != [] && AllDigits(r)
    ensures r[0] == '0' ==> n == 0
  {
    if n < 10 then [DigitChar(n)] else Show(n / 10) + [DigitChar(n % 10)]
  }

  lemma {:induction false} ShowValue(n: nat)
    ensures DigitsValue(Show(n)) == n
  {
    var r := Show(n);
    if n >= 10 {
      ShowValue(n / 10);
      assert r[..|r| - 1] == Show(n / 10);
    }
  }

  lemma {:induction false} DigitPrefixOfDigits(s: string)
    requires AllDigits(s)
    ensures DigitPrefix(s) == s
  {
  }

  /** Parsing the rendering of a natural gives it back. */
  lemma ParseShow(n: nat)
    ensures ParseInt(Show(n)) == Some(n)
  {
    DigitPrefixOfDigits(Show(n));
    ShowValue(n);
  }

  /** A minus sign in front of a rendering parses to the negated value. */
  lemma ParseNegatedShow(n: nat)
    ensures ParseInt("-" + Show(n)) == Some(-(n as int))
  {
    var s := "-" + Show(n);
    assert s[1..] == Show(n);
    ParseShow(n);
  }

  /** A digit string is worth more than zero exactly when one of its digits is not '0'. */
  lemma {:induction false} DigitsPositive(ds: string)
    requires AllDigits(ds)
    ensures DigitsValue(ds) > 0 <==> exists i :: 0 <= i < |ds| && ds[i] != '0'
  {
    if ds != [] {
      var init := ds[..|ds| - 1];
      DigitsPositive(init);
      if exists i :: 0 <= i < |init| && init[i] != '0' {
        var i :| 0 <= i < |init| && init[i] != '0';
        assert ds[i] != '0';
      }
      if exists i :: 0 <= i < |ds| && ds[i] != '0' {
        var i :| 0 <= i < |ds| && ds[i] != '0';
        if i < |ds| - 1 {
          assert init[i] != '0';
        }
      }
    }
  }

  /** A count typed as digits alone parses, and parses to a positive number exactly
      when some digit is not '0' (so "0" and "000" count as sold out). */
  lemma ParsePositive(s: string)
    requires AllDigits(s) && s != []
    ensures ParseInt(s).Some?
    ensures ParseInt(s).value > 0 <==> exists i :: 0 <= i < |s| && s[i] != '0'
  {
    DigitPrefixOfDigits(s);
    assert s[0] != '-' && s[0] != '+' by { assert IsDigit(s[0]); }
    DigitsPositive(s);
  }
}
