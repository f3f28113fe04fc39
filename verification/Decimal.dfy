/** Decimal text of numbers. */
module Decimal {

  predicate IsDigit(c: char) {
    '0' <= c <= '9'
  }

  predicate AllDigits(s: string) {
    forall i :: 0 <= i < |s| ==> IsDigit(s[i])
  }

  function DigitChar(d: int): (c: char)
    requires 0 <= d < 10
    ensures IsDigit(c) && DigitValue(c) == d
  {
    '0' + d as char
  }

  function DigitValue(c: char): int {
    c as int - '0' as int
  }

  function NatText(n: nat): (s: string)
    ensures s != "" && AllDigits(s)
  {
    var last := [DigitChar(n % 10)];
    if n < 10 then last else NatText(n / 10) + last
  }

  function IntText(n: int): string {
    if n >= 0 then NatText(n) else "-" + NatText(-n)
  }

  /** Reading a decimal text back. */
  function Value(s: string): int {
    if s == "" then 0 else 10 * Value(s[..|s| - 1]) + DigitValue(s[|s| - 1])
  }

  lemma {:induction false} ValueOfNatText(n: nat)
    ensures Value(NatText(n)) == n
  {
    var s := NatText(n);
    if n < 10 {
      assert s[..0] == "";
      assert Value(s[..0]) == 0;
    } else {
      ValueOfNatText(n / 10);
      assert s[..|s| - 1] == NatText(n / 10);
    }
  }

  /** Different numbers have different texts, negative ones included. */
  lemma IntTextInjective(m: int, n: int)
    ensures IntText(m) == IntText(n) <==> m == n
  {
    var a, b := if m >= 0 then m else -m, if n >= 0 then n else -n;
    ValueOfNatText(a);
    ValueOfNatText(b);
    if m < 0 && n < 0 {
      assert IntText(m)[1..] == NatText(a) && IntText(n)[1..] == NatText(b);
    } else if m < 0 || n < 0 {
      assert IsDigit(NatText(a)[0]) && IsDigit(NatText(b)[0]) && !IsDigit('-');
    }
  }
}
