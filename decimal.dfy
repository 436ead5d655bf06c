/**
 * Decimal rendering of integers, as a JavaScript template literal prints a
 * number, and the parser that reads it back.
 */
module Decimal {
  import opened Wrappers

  /** A decimal digit; also the class `\d` of a JavaScript regular expression. */
  predicate IsDigit(c: char) {
    '0' <= c <= '9'
  }

  function DigitChar(d: nat): (c: char)
    requires d < 10
    ensures IsDigit(c)
  {
    "0123456789"[d]
  }

  function DigitValue(c: char): (d: nat)
    requires IsDigit(c)
    ensures d < 10
  {
    (c as int - '0' as int) as nat
  }

  /** The digits of n without leading zeros. */
  function NatToDecimal(n: nat): string {
    if n < 10 then [DigitChar(n)] else NatToDecimal(n / 10) + [DigitChar(n % 10)]
  }

  /** `${n}` for an integer n: a minus sign in front of a negative one. */
  function IntToDecimal(n: int): string {
    if n < 0 then "-" + NatToDecimal(-n) else NatToDecimal(n)
  }

  /**
   * The rendering of a natural number is non-empty, all digits, free of
   * leading zeros, and a single digit exactly below ten.
   */
  lemma {:induction false} NatToDecimalShape(n: nat)
    ensures var r := NatToDecimal(n);
            && r != []
            && (forall k :: 0 <= k < |r| ==> IsDigit(r[k]))
            && (r[0] == '0' ==> r == "0")
            && (|r| == 1 <==> n < 10)
  {
    if n >= 10 {
      NatToDecimalShape(n / 10);
      var r, front := NatToDecimal(n), NatToDecimal(n / 10);
      assert forall k :: 0 <= k < |front| ==> r[k] == front[k];
      assert r[0] == front[0];
    }
  }

  /** The rendering of an integer is non-empty and has no `/`, so it is one path component. */
  lemma IntToDecimalShape(n: int)
    ensures var r := IntToDecimal(n);
            r != [] && '/' !in r
  {
    var m := if n < 0 then -n else n;
    NatToDecimalShape(m);
    var d := NatToDecimal(m);
    assert forall k :: 0 <= k < |d| ==> d[k] != '/';
  }

  /** The value of a non-empty string of digits. */
  function ParseNat(s: string): Option<nat>
  {
    if s == [] || !IsDigit(s[|s| - 1]) then None
    else if |s| == 1 then Some(DigitValue(s[0]))
    else match ParseNat(s[..|s| - 1])
      case None => None
      case Some(m) => Some(10 * m + DigitValue(s[|s| - 1]))
  }

  /** ParseNat accepts exactly the non-empty strings of digits. */
  lemma {:induction false} ParseNatDigits(s: string)
    ensures ParseNat(s).Some? <==> s != [] && forall k :: 0 <= k < |s| ==> IsDigit(s[k])
  {
    if |s| > 1 && IsDigit(s[|s| - 1]) {
      var front := s[..|s| - 1];
      ParseNatDigits(front);
      assert forall k :: 0 <= k < |front| ==> front[k] == s[k];
    }
  }

  /** An optional minus sign followed by digits. */
  function ParseInt(s: string): (r: Option<int>)
  {
    if s != [] && s[0] == '-' then
      match ParseNat(s[1..])
      case None => None
      case Some(m) => Some(0 - m as int)
    else
      match ParseNat(s)
      case None => None
      case Some(m) => Some(m)
  }

  /** Reading back what NatToDecimal prints gives the number. */
  lemma {:induction false} NatRoundTrip(n: nat)
    ensures ParseNat(NatToDecimal(n)) == Some(n)
  {
    if 10 <= n {
      var r := NatToDecimal(n);
      NatRoundTrip(n / 10);
      assert r[..|r| - 1] == NatToDecimal(n / 10);
    }
  }

  /** Reading back what IntToDecimal prints gives the number, sign included. */
  lemma IntRoundTrip(n: int)
    ensures ParseInt(IntToDecimal(n)) == Some(n)
  {
    if n < 0 {
      var d := NatToDecimal(-n);
      assert ParseNat(d) == Some(-n) by {
        NatRoundTrip(-n);
      }
      assert IntToDecimal(n)[1..] == d;
    } else {
      assert ParseNat(IntToDecimal(n)) == Some(n) by {
        NatRoundTrip(n);
      }
      NatToDecimalShape(n);
    }
  }
}
