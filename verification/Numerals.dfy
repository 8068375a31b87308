/** Runs of characters, and numbers in decimal. */
module Numerals {

  predicate IsDigit(c: char) { '0' <= c <= '9' }

  predicate AllDigits(s: string) { forall k :: 0 <= k < |s| ==> IsDigit(s[k]) }

  /** How many leading characters satisfy `p`. */
  function LeadingRun(p: char -> bool, s: string): (n: nat)
    ensures n <= |s|
    ensures forall k :: 0 <= k < n ==> p(s[k])
    ensures n < |s| ==> !p(s[n])
  {
    if s == "" || !p(s[0]) then 0 else 1 + LeadingRun(p, s[1..])
  }

  lemma LeadingRunUnique(p: char -> bool, s: string, n: nat)
    requires n <= |s| && (forall k :: 0 <= k < n ==> p(s[k])) && (n < |s| ==> !p(s[n]))
    ensures LeadingRun(p, s) == n
  {
  }

  function DigitValue(c: char): (d: nat)
    requires IsDigit(c)
    ensures d < 10
  {
    c as int - '0' as int
  }

  /** The number a run of digits denotes. */
  function Decimal(text: string): nat
    requires forall k :: 0 <= k < |text| ==> IsDigit(text[k])
  {
    if text == "" then 0
    else
      var n := |text| - 1;
      assert IsDigit(text[n]);
      10 * Decimal(text[..n]) + DigitValue(text[n])
  }

  /** A number written in decimal. */
  function Digits(n: nat): (s: string)
    ensures s != "" && AllDigits(s)
  {
    if n < 10 then [(n + '0' as int) as char] else Digits(n / 10) + [(n % 10 + '0' as int) as char]
  }

  lemma {:induction false} DigitsDecimal(n: nat)
    ensures Decimal(Digits(n)) == n
  {
    var s := Digits(n);
    if n >= 10 {
      DigitsDecimal(n / 10);
      assert s[..|s| - 1] == Digits(n / 10);
    } else {
      assert s[..|s| - 1] == "";
    }
  }

  /** No zeros are written in front. */
  lemma {:induction false} NoLeadingZero(n: nat)
    ensures Digits(n) == "0" || Digits(n)[0] != '0'
  {
    if n >= 10 {
      NoLeadingZero(n / 10);
      assert Digits(n / 10) != "0" by {
        DigitsDecimal(n / 10);
      }
    }
  }
}
