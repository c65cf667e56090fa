/** Decimal text of natural numbers, as Rust's `Display` writes them (`format!("{}", n)`). */
module Decimal {
  import opened Wrappers

  predicate IsDigit(c: char) {
    '0' <= c <= '9'
  }

  predicate AllDigits(s: string) {
    forall i :: 0 <= i < |s| ==> IsDigit(s[i])
  }

  function DigitChar(d: nat): (c: char)
    requires d < 10
    ensures IsDigit(c)
  {
    ('0' as int + d) as char
  }

  function DigitValue(c: char): (d: nat)
    requires IsDigit(c)
    ensures d < 10 && DigitChar(d) == c
  {
    c as int - '0' as int
  }

  /** The shortest decimal text of `n`: digits only, and no leading zero unless `n` is zero. */
  function NatToText(n: nat): (s: string)
    ensures 1 <= |s| && AllDigits(s)
    ensures s[0] == '0' ==> n == 0 && s == "0"
    decreases n
  {
    if n < 10 then [DigitChar(n)] else NatToText(n / 10) + [DigitChar(n % 10)]
  }

  /** The value of a string of decimal digits (most significant first). */
  function DigitsValue(s: string): nat
    requires AllDigits(s)
  {
    if s == [] then 0 else DigitsValue(s[..|s| - 1]) * 10 + DigitValue(s[|s| - 1])
  }

  /** Reading decimal text back: `None` for anything that is not a non-empty run of digits. */
  function ParseNat(s: string): Option<nat> {
    if s != [] && AllDigits(s) then Some(DigitsValue(s)) else None
  }

  lemma {:induction false} DigitsValueOfText(n: nat)
    ensures DigitsValue(NatToText(n)) == n
    decreases n
  {
    if n >= 10 {
      var s := NatToText(n);
      DigitsValueOfText(n / 10);
      assert s[..|s| - 1] == NatToText(n / 10);
      assert s[|s| - 1] == DigitChar(n % 10);
    }
  }

  /** Writing a number and reading it back gives the number. */
  lemma ParseNatOfText(n: nat)
    ensures ParseNat(NatToText(n)) == Some(n)
  {
    DigitsValueOfText(n);
  }

  /** Different numbers never share a decimal text. */
  lemma NatToTextInjective(m: nat, n: nat)
    requires NatToText(m) == NatToText(n)
    ensures m == n
  {
    DigitsValueOfText(m);
    DigitsValueOfText(n);
  }
}
