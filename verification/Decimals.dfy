/** Decimal numerals: what they say. */
module Decimals {
  predicate AllDigits(s: string) {
    forall i | 0 <= i < |s| :: '0' <= s[i] <= '9'
  }

  /** The number that a string of digits says. */
  function ReadDecimal(s: string): nat
    requires AllDigits(s)
  {
    if s == "" then 0 else 10 * ReadDecimal(s[..|s| - 1]) + (s[|s| - 1] - '0') as nat
  }

  /** A numeral without leading zeros. */
  predicate Says(s: string, n: nat) {
    s != "" && AllDigits(s) && ReadDecimal(s) == n && (s[0] == '0' ==> s == "0")
  }
}
