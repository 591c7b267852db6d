/** Natural numbers as decimal text. */
module Decimal {

  predicate IsDigit(c: char) {
    '0' <= c <= '9'
  }

  function Digit(n: nat): (c: char)
    requires n < 10
    ensures IsDigit(c) && DigitValue(c) == n
  {
    '0' + n as char
  }

  function DigitValue(c: char): (n: nat)
    requires IsDigit(c)
    ensures n < 10
  {
    c as int - '0' as int
  }

  function Dec(n: nat): (s: string)
    ensures s != "" && forall c <- s :: IsDigit(c)
  {
    if n < 10 then [Digit(n)] else Dec(n / 10) + [Digit(n % 10)]
  }

  function Value(s: string): nat
    requires forall c <- s :: IsDigit(c)
  {
    if s == "" then 0
    else
      var c := s[|s| - 1];
      assert IsDigit(c);
      10 * Value(s[..|s| - 1]) + DigitValue(c)
  }

  lemma {:induction false} ValueOfDec(n: nat)
    ensures Value(Dec(n)) == n
  {
    if n >= 10 {
      ValueOfDec(n / 10);
      assert Dec(n)[..|Dec(n)| - 1] == Dec(n / 10);
    }
  }

  lemma {:induction false} DecLeads(n: nat)
    ensures Dec(n)[0] == '0' <==> n == 0
  {
    if n >= 10 {
      DecLeads(n / 10);
    }
  }

  /** Digits without a superfluous leading zero are the decimal form of their value. */
  lemma {:induction false} DecOfValue(s: string)
    requires s != "" && (forall c <- s :: IsDigit(c)) && (s[0] == '0' ==> |s| == 1)
    ensures Dec(Value(s)) == s
  {
    var n := |s| - 1;
    assert IsDigit(s[n]) && Digit(DigitValue(s[n])) == s[n];
    assert s == s[..n] + [s[n]];
    if n > 0 {
      DecOfValue(s[..n]);
      assert Dec(0) == "0" && s[..n][0] == s[0];
      assert Value(s[..n]) != 0;
    } else {
      assert Value(s[..n]) == 0;
    }
  }
}
