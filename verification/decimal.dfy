/** Decimal rendering of a natural number, as Rust's `{}` and `{:?}` print a `usize`. */
module Decimal {

  predicate IsDigitChar(c: char) {
    '0' <= c <= '9'
  }

  predicate AllDigitChars(s: string) {
    forall i | 0 <= i < |s| :: IsDigitChar(s[i])
  }

  function DigitChar(d: nat): (c: char)
    requires d < 10
    ensures IsDigitChar(c)
  {
    ('0' as int + d) as char
  }

  function CharValue(c: char): (d: nat)
    requires IsDigitChar(c)
    ensures d < 10
  {
    c as int - '0' as int
  }

  /** Shortest decimal numeral: at least one digit, and no leading zero unless it is "0". */
  function Dec(n: nat): (s: string)
    ensures |s| >= 1
    ensures AllDigitChars(s)
    ensures |s| > 1 ==> s[0] != '0'
    ensures n < 10 <==> |s| == 1
  {
    if n < 10 then [DigitChar(n)] else Dec(n / 10) + [DigitChar(n % 10)]
  }

  /** Reads a numeral back, most significant digit first. */
  function ReadDec(s: string): nat
    requires AllDigitChars(s)
  {
    if |s| == 0 then 0 else 10 * ReadDec(s[..|s| - 1]) + CharValue(s[|s| - 1])
  }

  lemma {:induction false} ReadDecOfDec(n: nat)
    ensures ReadDec(Dec(n)) == n
  {
    if n >= 10 {
      var s := Dec(n);
      assert s[..|s| - 1] == Dec(n / 10);
      ReadDecOfDec(n / 10);
    }
  }

  /** Different numbers never print the same. */
  lemma DecInjective(m: nat, n: nat)
    requires Dec(m) == Dec(n)
    ensures m == n
  {
    ReadDecOfDec(m);
    ReadDecOfDec(n);
  }
}
