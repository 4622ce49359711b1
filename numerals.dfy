/**
 * Decimal text of integers, as `json_encode` writes an int and as PHP casts an
 * int key to a string, and the reverse reading PHP applies to an array key
 * given as a string.
 */
module Numerals {
  import opened Wrappers

  predicate IsDigit(c: char)
  {
    '0' <= c <= '9'
  }

  predicate AllDigits(s: string)
  {
    forall i :: 0 <= i < |s| ==> IsDigit(s[i])
  }

  function DigitChar(d: nat): (c: char)
    requires d < 10
    ensures IsDigit(c) && c as int - '0' as int == d
  {
    ('0' as int + d) as char
  }

  function DigitValue(c: char): nat
    requires IsDigit(c)
  {
    c as int - '0' as int
  }

  /** The decimal digits of n, most significant first, without leading zeros. */
  function Natural(n: nat): (s: string)
    ensures |s| >= 1 && AllDigits(s)
    ensures s[0] == '0' <==> n == 0
    ensures n == 0 ==> s == "0"
  {
    if n < 10 then [DigitChar(n)] else Natural(n / 10) + [DigitChar(n % 10)]
  }

  /** The number a string of digits denotes (leading zeros allowed). */
  function DigitsValue(s: string): nat
    requires AllDigits(s)
  {
    if s == [] then 0 else DigitsValue(s[..|s| - 1]) * 10 + DigitValue(s[|s| - 1])
  }

  /** `(string) $i` and `json_encode($i)` for an integer. */
  function Decimal(i: int): string
  {
    if i < 0 then "-" + Natural(-i) else Natural(i)
  }

  /**
   * The integer a string stands for under PHP's array-key rule: an optional
   * minus sign and decimal digits, no leading zero (so "0" is an integer and
   * "-0", "007" and "" are not).
   */
  function ParseDecimal(s: string): Option<int>
  {
    if |s| >= 1 && AllDigits(s) && (s[0] != '0' || |s| == 1) then Some(DigitsValue(s))
    else if |s| >= 2 && s[0] == '-' && AllDigits(s[1..]) && s[1] != '0' then Some(0 - DigitsValue(s[1..]) as int)
    else None
  }

  lemma {:induction false} NaturalValue(n: nat)
    ensures DigitsValue(Natural(n)) == n
  {
    if n >= 10 {
      NaturalValue(n / 10);
      var s := Natural(n);
      assert s[..|s| - 1] == Natural(n / 10);
    }
  }

  /** Reading back the decimal text of any integer gives that integer. */
  lemma DecimalRoundTrip(i: int)
    ensures ParseDecimal(Decimal(i)) == Some(i)
  {
    var s := Decimal(i);
    if i < 0 {
      var t := Natural(-i);
      NaturalValue(-i);
      assert s == "-" + t;
      assert s[1..] == t;
      assert !IsDigit(s[0]);
      assert ParseDecimal(s) == Some(0 - DigitsValue(t) as int);
    } else {
      NaturalValue(i);
      assert ParseDecimal(s) == Some(DigitsValue(s));
    }
  }

  /** Digits without a leading zero are exactly the decimal text of their value. */
  lemma {:induction false} DigitsNatural(s: string)
    requires |s| >= 1 && AllDigits(s) && (s[0] != '0' || |s| == 1)
    ensures Natural(DigitsValue(s)) == s
  {
    if |s| >= 2 {
      var p := s[..|s| - 1];
      DigitsNatural(p);
      assert DigitsValue(p) != 0 by {
        assert Natural(0) == "0";
      }
      var n := DigitsValue(s);
      assert n / 10 == DigitsValue(p) && n % 10 == DigitValue(s[|s| - 1]);
      assert s == p + [s[|s| - 1]];
    }
  }

  /** A string PHP reads as an integer key is the decimal text of that integer. */
  lemma ParseDecimalCanonical(s: string)
    requires ParseDecimal(s).Some?
    ensures Decimal(ParseDecimal(s).value) == s
  {
    if |s| >= 1 && AllDigits(s) && (s[0] != '0' || |s| == 1) {
      DigitsNatural(s);
    } else {
      var t := s[1..];
      DigitsNatural(t);
      assert DigitsValue(t) != 0 by {
        assert Natural(0) == "0";
      }
      assert s == "-" + t;
    }
  }
}
