/** Decimal text of integers, as template strings print them, and reading it back. */
module Decimal {
  import opened Wrappers

  predicate IsDigit(c: char) { '0' <= c <= '9' }

  predicate AllDigits(s: string) { s != "" && forall c | c in s :: IsDigit(c) }

  function DigitChar(d: nat): (c: char)
    requires d < 10
    ensures IsDigit(c)
  {
    (d + 48) as char
  }

  function DigitValue(c: char): nat
    requires IsDigit(c)
  {
    c as nat - 48
  }

  function NatText(n: nat): (s: string)
    ensures AllDigits(s)
  {
    if n < 10 then [DigitChar(n)] else NatText(n / 10) + [DigitChar(n % 10)]
  }

  function NatValue(s: string): nat
    requires forall c | c in s :: IsDigit(c)
  {
    if s == "" then 0 else 10 * NatValue(s[..|s| - 1]) + DigitValue(s[|s| - 1])
  }

  lemma {:induction false} NatRoundTrip(n: nat)
    ensures NatValue(NatText(n)) == n
  {
    if n >= 10 {
      NatRoundTrip(n / 10);
      assert NatText(n)[..|NatText(n)| - 1] == NatText(n / 10);
    } else {
      assert NatText(n)[..0] == "";
    }
  }

  function IntText(n: int): (s: string)
    ensures s != ""
    ensures forall c | c in s :: IsDigit(c) || c == '-'
  {
    if n < 0 then "-" + NatText(-n) else NatText(n)
  }

  // An optional sign and decimal digits; None for any other text.
  function IntValue(s: string): Option<int> {
    if AllDigits(s) then Some(NatValue(s))
    else if s != "" && s[0] == '-' && AllDigits(s[1..]) then Some(-(NatValue(s[1..]) as int))
    else if s != "" && s[0] == '+' && AllDigits(s[1..]) then Some(NatValue(s[1..]))
    else None
  }

  lemma {:induction false} IntRoundTrip(n: int)
    ensures IntValue(IntText(n)) == Some(n)
  {
    if n < 0 {
      NatRoundTrip(-n);
      var s := IntText(n);
      assert s[0] == '-' && s[0] in s && s[1..] == NatText(-n);
    } else {
      NatRoundTrip(n);
    }
  }

  lemma {:induction false} NatTextInjective(m: nat, n: nat)
    requires NatText(m) == NatText(n)
    ensures m == n
  {
    NatRoundTrip(m);
    NatRoundTrip(n);
  }

  lemma {:induction false} IntTextInjective(m: int, n: int)
    requires IntText(m) == IntText(n)
    ensures m == n
  {
    IntRoundTrip(m);
    IntRoundTrip(n);
  }
}
