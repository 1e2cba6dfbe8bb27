/** Bare decimal integers: printing, and reading digits back. */
module Decimal {

  predicate Digit(c: char) {
    '0' <= c <= '9'
  }

  function DigitChar(d: nat): (c: char)
    requires d < 10
    ensures Digit(c) && c as int - '0' as int == d
  {
    ('0' as int + d) as char
  }

  function ShowNat(n: nat): (s: string)
    ensures s != "" && forall i | 0 <= i < |s| :: Digit(s[i])
    ensures n > 0 ==> s[0] != '0'
    ensures n == 0 ==> s == "0"
  {
    if n < 10 then [DigitChar(n)] else ShowNat(n / 10) + [DigitChar(n % 10)]
  }

  function Show(n: int): (s: string)
    ensures s != ""
  {
    if n < 0 then "-" + ShowNat(-n) else ShowNat(n)
  }

  /** The number a run of digits denotes. */
  function ReadNat(s: string): nat
    requires forall i | 0 <= i < |s| :: Digit(s[i])
  {
    if s == "" then 0
    else
      assert Digit(s[|s| - 1]);
      10 * ReadNat(s[..|s| - 1]) + (s[|s| - 1] as int - '0' as int)
  }

  lemma {:induction false} ReadOfShow(n: nat)
    ensures ReadNat(ShowNat(n)) == n
  {
    if n >= 10 {
      ReadOfShow(n / 10);
      var s := ShowNat(n);
      assert s[..|s| - 1] == ShowNat(n / 10);
    }
  }
}
