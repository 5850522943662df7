/**
 * Decimal text of an integer, as a JavaScript template literal writes a
 * whole number (`${n}`): digits with no leading zero, a `-` before a
 * negative value. `ParseInt` reads it back.
 */
module Decimal {

  predicate IsDigit(c: char) {
    '0' <= c <= '9'
  }

  function DigitChar(d: nat): (c: char)
    requires d < 10
    ensures IsDigit(c) && DigitValue(c) == d
  {
    (('0' as int) + d) as char
  }

  function DigitValue(c: char): nat
    requires IsDigit(c)
  {
    (c as int) - ('0' as int)
  }

  function NatToString(n: nat): (r: string)
    ensures |r| >= 1
    ensures forall i :: 0 <= i < |r| ==> IsDigit(r[i])
    ensures r[0] == '0' ==> n == 0 && |r| == 1
    decreases n
  {
    if n < 10 then [DigitChar(n)] else NatToString(n / 10) + [DigitChar(n % 10)]
  }

  /**
   * The text of an integer as `${n}` writes it: an optional `-`, then
   * digits with no leading zero; "0" is the only text starting with `0`,
   * and there is no "-0".
   */
  predicate IsCanonical(s: string) {
    && |s| >= 1
    && (s[0] == '-' || IsDigit(s[0]))
    && (forall i :: 1 <= i < |s| ==> IsDigit(s[i]))
    && (s[0] == '0' ==> |s| == 1)
    && (s[0] == '-' ==> |s| >= 2 && s[1] != '0')
  }

  function IntToString(n: int): (r: string)
    ensures IsCanonical(r)
    ensures r[0] == '-' <==> n < 0
  {
    if n < 0 then "-" + NatToString(-n) else NatToString(n)
  }

  /** The value of a string of decimal digits, most significant first. */
  function ParseNat(s: string): nat
    requires forall i :: 0 <= i < |s| ==> IsDigit(s[i])
  {
    if s == [] then 0 else 10 * ParseNat(s[..|s| - 1]) + DigitValue(s[|s| - 1])
  }

  function ParseInt(s: string): int
    requires |s| >= 1
    requires forall i :: 1 <= i < |s| ==> IsDigit(s[i])
    requires s[0] == '-' || IsDigit(s[0])
  {
    if s[0] == '-' then -(ParseNat(s[1..]) as int) else ParseNat(s)
  }

  lemma {:induction false} ParseNatToString(n: nat)
    ensures ParseNat(NatToString(n)) == n
    decreases n
  {
    var r := NatToString(n);
    if n >= 10 {
      ParseNatToString(n / 10);
      assert r[..|r| - 1] == NatToString(n / 10);
    }
  }

  /** Reading back the decimal text of any integer gives that integer. */
  lemma IntToStringRoundTrip(n: int)
    ensures ParseInt(IntToString(n)) == n
  {
    var r := IntToString(n);
    if n < 0 {
      assert r[1..] == NatToString(-n);
      ParseNatToString(-n);
    } else {
      ParseNatToString(n);
    }
  }

  lemma {:induction false} ParseNatPositive(s: string)
    requires |s| >= 1 && s[0] != '0'
    requires forall i :: 0 <= i < |s| ==> IsDigit(s[i])
    ensures ParseNat(s) > 0
  {
    if |s| > 1 {
      ParseNatPositive(s[..|s| - 1]);
    }
  }

  lemma {:induction false} NatToStringParseNat(s: string)
    requires |s| >= 1 && (s[0] == '0' ==> |s| == 1)
    requires forall i :: 0 <= i < |s| ==> IsDigit(s[i])
    ensures NatToString(ParseNat(s)) == s
  {
    var prefix, last := s[..|s| - 1], s[|s| - 1];
    if |s| == 1 {
      assert ParseNat(prefix) == 0;
      assert DigitChar(DigitValue(last)) == last;
    } else {
      ParseNatPositive(prefix);
      NatToStringParseNat(prefix);
      var m := ParseNat(prefix);
      var n := 10 * m + DigitValue(last);
      assert n / 10 == m && n % 10 == DigitValue(last);
      assert DigitChar(DigitValue(last)) == last;
      assert s == prefix + [last];
    }
  }

  /**
   * The other direction of the round trip: a canonical numeral is the text
   * of the integer it denotes, so two different canonical numerals never
   * denote the same integer.
   */
  lemma CanonicalRoundTrip(s: string)
    requires IsCanonical(s)
    ensures IntToString(ParseInt(s)) == s
  {
    if s[0] == '-' {
      ParseNatPositive(s[1..]);
      NatToStringParseNat(s[1..]);
      assert s == "-" + s[1..];
    } else {
      NatToStringParseNat(s);
    }
  }
}
