/** Decimal integers as text: `str(n)` and `int(s)` for the plain forms the
    pipeline meets (an optional sign followed by ASCII digits). */
module Numerals {
  import opened Outcomes

  predicate IsDigit(c: char) { '0' <= c <= '9' }

  predicate AllDigits(s: string) { forall i :: 0 <= i < |s| ==> IsDigit(s[i]) }

  function DigitChar(d: nat): (c: char)
    requires d < 10
    ensures IsDigit(c) && c as int - '0' as int == d
  {
    ('0' as int + d) as char
  }

  function DigitValue(c: char): (d: nat)
    requires IsDigit(c)
    ensures d < 10
  {
    c as int - '0' as int
  }

  /** Decimal rendering of a natural number, without leading zeros. */
  function ShowNat(n: nat): (s: string)
    ensures s != [] && AllDigits(s)
    ensures n < 10 <==> |s| == 1
    decreases n
  {
    if n < 10 then [DigitChar(n)] else ShowNat(n / 10) + [DigitChar(n % 10)]
  }

  /** Python `str(n)` for an integer. */
  function ShowInt(n: int): (s: string)
    ensures s != []
    ensures n < 0 <==> s[0] == '-'
  {
    if n < 0 then "-" + ShowNat(-n) else ShowNat(n)
  }

  /** The value of a string of decimal digits (leading zeros allowed). */
  function DigitsValue(s: string): nat
    requires AllDigits(s)
    decreases |s|
  {
    if s == [] then 0 else DigitsValue(s[..|s| - 1]) * 10 + DigitValue(s[|s| - 1])
  }

  /** Python `int(s)` on an optional `+`/`-` sign followed by one or more
      ASCII digits; anything else is rejected. */
  function ParseInt(s: string): (r: Option<int>)
    ensures r.Some? <==> (s != [] && AllDigits(s)) || (|s| >= 2 && (s[0] == '+' || s[0] == '-') && AllDigits(s[1..]))
    ensures s != [] && AllDigits(s) ==> r == Some(DigitsValue(s))
    ensures |s| >= 2 && s[0] == '+' && AllDigits(s[1..]) ==> r == Some(DigitsValue(s[1..]))
    ensures |s| >= 2 && s[0] == '-' && AllDigits(s[1..]) ==> r == Some(0 - DigitsValue(s[1..]))
  {
    if s != [] && (s[0] == '-' || s[0] == '+') then
      var d := s[1..];
      if d != [] && AllDigits(d) then Some(if s[0] == '-' then 0 - DigitsValue(d) as int else DigitsValue(d) as int) else None
    else if s != [] && AllDigits(s) then Some(DigitsValue(s) as int)
    else None
  }

  /** Reading back a rendered natural number gives that number. */
  lemma {:induction false} DigitsValueOfShowNat(n: nat)
    ensures DigitsValue(ShowNat(n)) == n
    decreases n
  {
    if n >= 10 {
      var s := ShowNat(n);
      assert s[..|s| - 1] == ShowNat(n / 10);
      DigitsValueOfShowNat(n / 10);
    }
  }

  /** `int(str(n)) == n` for every integer. */
  lemma ParseShowInt(n: int)
    ensures ParseInt(ShowInt(n)) == Some(n)
  {
    if n < 0 {
      DigitsValueOfShowNat(-n);
      assert ShowInt(n)[1..] == ShowNat(-n);
    } else {
      DigitsValueOfShowNat(n);
    }
  }

  /** Leading zeros do not change the value of a digit string. */
  lemma {:induction false} DigitsValueLeadingZeros(z: string, d: string)
    requires forall i :: 0 <= i < |z| ==> z[i] == '0'
    requires AllDigits(d)
    ensures AllDigits(z + d) && DigitsValue(z + d) == DigitsValue(d)
    decreases |d|
  {
    var s := z + d;
    assert AllDigits(s) by {
      forall i | 0 <= i < |s| ensures IsDigit(s[i]) {
        if i < |z| { assert s[i] == z[i]; } else { assert s[i] == d[i - |z|]; }
      }
    }
    if d == [] {
      assert s == z;
      AllZerosValue(z);
    } else {
      assert s[..|s| - 1] == z + d[..|d| - 1];
      DigitsValueLeadingZeros(z, d[..|d| - 1]);
    }
  }

  lemma {:induction false} AllZerosValue(z: string)
    requires forall i :: 0 <= i < |z| ==> z[i] == '0'
    ensures AllDigits(z) && DigitsValue(z) == 0
    decreases |z|
  {
    if z != [] {
      AllZerosValue(z[..|z| - 1]);
    }
  }

  /** Two digit strings of the same length with the same value are equal. */
  lemma {:induction false} DigitsValueInjective(a: string, b: string)
    requires |a| == |b| && AllDigits(a) && AllDigits(b) && DigitsValue(a) == DigitsValue(b)
    ensures a == b
    decreases |a|
  {
    if a != [] {
      var n := |a|;
      var x, y := DigitsValue(a[..n - 1]), DigitsValue(b[..n - 1]);
      var da, db := DigitValue(a[n - 1]), DigitValue(b[n - 1]);
      assert x * 10 + da == y * 10 + db;
      assert da == db && x == y;
      assert a[n - 1] as int == b[n - 1] as int;
      DigitsValueInjective(a[..n - 1], b[..n - 1]);
      assert a == a[..n - 1] + [a[n - 1]];
      assert b == b[..n - 1] + [b[n - 1]];
    }
  }
}
