/** Decimal numerals, as printf writes and strtoul reads them. */
module Numerals {
  predicate IsDigit(c: char) {
    '0' <= c <= '9'
  }

  predicate AllDigits(s: string) {
    forall i :: 0 <= i < |s| ==> IsDigit(s[i])
  }

  /** The number that a string of digits stands for. */
  function Number(s: string): nat
    requires AllDigits(s)
  {
    if s == "" then 0 else 10 * Number(s[..|s| - 1]) + (s[|s| - 1] as int - '0' as int)
  }

  /** "%d" of a number that is not negative */
  function Decimal(n: nat): string
    decreases n
  {
    var d := [(n % 10 + '0' as int) as char];
    if n < 10 then d else Decimal(n / 10) + d
  }

  /** It is a numeral of that number without leading zeros. */
  lemma {:induction false} DecimalIs(n: nat)
    ensures Decimal(n) != "" && AllDigits(Decimal(n)) && Number(Decimal(n)) == n
    ensures Decimal(n)[0] == '0' ==> n == 0 && Decimal(n) == "0"
    decreases n
  {
    if n < 10 {
      assert Decimal(n)[..0] == "";
    } else {
      DecimalIs(n / 10);
      NumberSnoc(Decimal(n / 10), (n % 10 + '0' as int) as char);
    }
  }

  lemma NumberSnoc(s: string, c: char)
    requires AllDigits(s) && IsDigit(c)
    ensures AllDigits(s + [c]) && Number(s + [c]) == 10 * Number(s) + (c as int - '0' as int)
  {
    assert (s + [c])[..|s|] == s;
  }
}
