/** Decimal numerals as Python writes and reads them: `str(n)` for an integer
    and `int(s)` for a header value. */
module Numerals {
  import opened Http

  predicate IsDigit(c: char) {
    '0' <= c <= '9'
  }

  predicate AllDigits(s: string) {
    forall i :: 0 <= i < |s| ==> IsDigit(s[i])
  }

  function DigitChar(d: nat): (c: char)
    requires d < 10
    ensures IsDigit(c)
  {
    ('0' as int + d) as char
  }

  function DigitValue(c: char): (d: nat)
    requires IsDigit(c)
    ensures d < 10 && DigitChar(d) == c
  {
    c as int - '0' as int
  }

  /** `str(n)` for n >= 0: the shortest decimal numeral, most significant digit first. */
  function ShowNat(n: nat): (s: string)
    ensures |s| > 0 && AllDigits(s)
    ensures |s| > 1 ==> s[0] != '0'
    ensures s[0] == '0' ==> n == 0
  {
    if n < 10 then [DigitChar(n)] else ShowNat(n / 10) + [DigitChar(n % 10)]
  }

  /** `str(n)` for any integer: a minus sign in front of negative numbers. */
  function ShowInt(n: int): (s: string)
    ensures IsCanonical(s)
    ensures n < 0 <==> s[0] == '-'
    ensures n >= 0 ==> AllDigits(s)
  {
    if n < 0 then "-" + ShowNat(-n) else ShowNat(n)
  }

  /** The value of a string of decimal digits (0 for the empty string). */
  function DigitsValue(s: string): nat
    requires AllDigits(s)
  {
    if s == [] then 0 else DigitsValue(s[..|s| - 1]) * 10 + DigitValue(s[|s| - 1])
  }

  /** The strings `int` accepts here: an optional `+` or `-` followed by at
      least one ASCII digit. */
  predicate IsNumeral(s: string) {
    || (|s| > 0 && AllDigits(s))
    || (|s| > 1 && (s[0] == '+' || s[0] == '-') && AllDigits(s[1..]))
  }

  /** The numerals `str` writes: no `+` sign, no leading zero, and no `-0`. */
  predicate IsCanonical(s: string) {
    && IsNumeral(s)
    && s[0] != '+'
    && (s[0] == '-' ==> s[1] != '0')
    && (s[0] != '-' && |s| > 1 ==> s[0] != '0')
  }

  /** `int(s)` on a header value: a numeral gives its signed decimal value;
      anything else is rejected, as Python raises ValueError. */
  function ParseInt(s: string): (r: Option<int>)
    ensures r.Some? <==> IsNumeral(s)
    ensures AllDigits(s) && s != [] ==> r == Some(DigitsValue(s))
    ensures IsNumeral(s) && s[0] == '-' ==> r == Some(-(DigitsValue(s[1..]) as int))
    ensures IsNumeral(s) && s[0] == '+' ==> r == Some(DigitsValue(s[1..]))
  {
    if |s| > 1 && s[0] == '-' && AllDigits(s[1..]) then Some(-(DigitsValue(s[1..]) as int))
    else if |s| > 1 && s[0] == '+' && AllDigits(s[1..]) then Some(DigitsValue(s[1..]))
    else if |s| > 0 && AllDigits(s) then Some(DigitsValue(s))
    else None
  }

  lemma {:induction false} DigitsValueShowNat(n: nat)
    ensures DigitsValue(ShowNat(n)) == n
  {
    if n >= 10 {
      var s := ShowNat(n);
      assert s[..|s| - 1] == ShowNat(n / 10);
      DigitsValueShowNat(n / 10);
    }
  }

  /** Reading back what `str` wrote gives the original integer. */
  lemma ParseShowInt(n: int)
    ensures ParseInt(ShowInt(n)) == Some(n)
  {
    if n < 0 {
      assert ShowInt(n)[1..] == ShowNat(-n);
      DigitsValueShowNat(-n);
    } else {
      DigitsValueShowNat(n);
    }
  }

  /** A string of digits without a leading zero is the numeral of its value. */
  lemma {:induction false} ShowNatDigitsValue(t: string)
    requires |t| > 0 && AllDigits(t)
    requires |t| > 1 ==> t[0] != '0'
    ensures ShowNat(DigitsValue(t)) == t
  {
    if |t| > 1 {
      var p := t[..|t| - 1];
      ShowNatDigitsValue(p);
      var v := DigitsValue(t);
      assert DigitsValue(p) != 0 by {
        assert p[0] == t[0] != '0';
      }
      assert v / 10 == DigitsValue(p) && v % 10 == DigitValue(t[|t| - 1]);
      assert t == p + [t[|t| - 1]];
    }
  }

  /** `str` writes the only canonical numeral of an integer: a canonical
      numeral that reads as n is exactly `str(n)`. */
  lemma CanonicalUnique(s: string, n: int)
    requires IsCanonical(s) && ParseInt(s) == Some(n)
    ensures s == ShowInt(n)
  {
    if s[0] == '-' {
      var t := s[1..];
      ShowNatDigitsValue(t);
      assert DigitsValue(t) != 0 by {
        assert t[0] == s[1] != '0';
      }
      assert s == "-" + t;
    } else {
      ShowNatDigitsValue(s);
    }
  }

  /** Distinct integers have distinct numerals. */
  lemma ShowIntInjective(a: int, b: int)
    requires ShowInt(a) == ShowInt(b)
    ensures a == b
  {
    ParseShowInt(a);
    ParseShowInt(b);
  }
}
