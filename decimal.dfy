/**
 * How a template literal such as `${skip.size} Yards` prints an integer:
 * its decimal digits with no leading zero, preceded by '-' when negative.
 * A reader for that text is given as the inverse, so that the round trip
 * can be proved.
 */
module Decimal {
  import opened Options

  predicate IsDigit(c: char) {
    '0' <= c <= '9'
  }

  predicate IsDigits(s: string) {
    forall i :: 0 <= i < |s| ==> IsDigit(s[i])
  }

  function DigitChar(d: nat): (c: char)
    requires d < 10
    ensures IsDigit(c)
  {
    ('0' as int + d) as char
  }

  function DigitValue(c: char): (d: nat)
    requires IsDigit(c)
    ensures d < 10 && DigitChar(d) == c
  {
    (c as int - '0' as int) as nat
  }

  /** The digits of a non-negative integer, most significant first. */
  function NatString(n: nat): (s: string)
    ensures |s| > 0 && IsDigits(s)
    ensures s[0] == '0' ==> n == 0
    decreases n
  {
    if n < 10 then [DigitChar(n)] else NatString(n / 10) + [DigitChar(n % 10)]
  }

  /** The text an integer-valued JavaScript number prints as. */
  function IntString(n: int): (s: string)
    ensures |s| > 0
    ensures s[0] == '-' <==> n < 0
  {
    if n < 0 then "-" + NatString(-n) else NatString(n)
  }

  /** Reads a string of decimal digits back as a number. */
  function ParseNat(s: string): (n: nat)
    requires IsDigits(s)
    decreases |s|
  {
    if s == [] then 0 else 10 * ParseNat(s[..|s| - 1]) + DigitValue(s[|s| - 1])
  }

  /** Reads an optionally negative decimal integer; None for anything else. */
  function ParseInt(s: string): (r: Option<int>)
    ensures r.Some? ==> |s| > 0
  {
    if |s| > 1 && s[0] == '-' && IsDigits(s[1..]) then Some(-(ParseNat(s[1..]) as int))
    else if |s| > 0 && IsDigits(s) then Some(ParseNat(s))
    else None
  }

  lemma {:induction false} ParseNatString(n: nat)
    ensures ParseNat(NatString(n)) == n
    decreases n
  {
    if n >= 10 {
      ParseNatString(n / 10);
      var s := NatString(n / 10) + [DigitChar(n % 10)];
      assert s[..|s| - 1] == NatString(n / 10);
    }
  }

  /** Reading back what was printed gives the number printed. */
  lemma IntStringRoundTrip(n: int)
    ensures ParseInt(IntString(n)) == Some(n)
  {
    if n < 0 {
      ParseNatString(-n);
      assert IntString(n)[1..] == NatString(-n);
    } else {
      ParseNatString(n);
      assert NatString(n)[0] != '-';
    }
  }

  /** Different numbers print differently. */
  lemma IntStringInjective(a: int, b: int)
    ensures IntString(a) == IntString(b) <==> a == b
  {
    IntStringRoundTrip(a);
    IntStringRoundTrip(b);
  }
}
