/** Decimal numerals as `format!` prints them and as they are read back. */
module Decimal {
  import opened Text

  function Digit(d: nat): (c: char)
    requires d < 10
    ensures IsDigit(c) && c as int - '0' as int == d
  {
    (d + '0' as int) as char
  }

  /** The numeral of `n`, without leading zeros. */
  function Numeral(n: nat): (s: string)
    ensures s != "" && forall c :: c in s ==> IsDigit(c)
  {
    if n < 10 then [Digit(n)] else Numeral(n / 10) + [Digit(n % 10)]
  }

  /** The number a string of digits denotes. */
  function NumberOf(s: string): nat
    requires forall c :: c in s ==> IsDigit(c)
  {
    if s == "" then 0
    else
      assert IsDigit(s[|s| - 1]) by { assert s[|s| - 1] in s; }
      NumberOf(s[..|s| - 1]) * 10 + (s[|s| - 1] as int - '0' as int)
  }

  lemma {:induction false} NumeralDenotes(n: nat)
    ensures NumberOf(Numeral(n)) == n
  {
    if n < 10 {
      assert Numeral(n)[..0] == "";
    } else {
      NumeralDenotes(n / 10);
      assert Numeral(n)[..|Numeral(n)| - 1] == Numeral(n / 10);
    }
  }
}
