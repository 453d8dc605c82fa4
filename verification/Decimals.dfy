/** Natural numbers written in decimal digits. */
module Decimals {
  predicate IsDigits(s: string)
  {
    s != "" && forall i :: 0 <= i < |s| ==> '0' <= s[i] <= '9'
  }

  function DigitsValue(s: string): nat
    requires forall i :: 0 <= i < |s| ==> '0' <= s[i] <= '9'
  {
    if s == "" then 0 else 10 * DigitsValue(s[..|s| - 1]) + (s[|s| - 1] - '0') as nat
  }

  function Decimal(n: nat): (s: string)
    ensures s != ""
  {
    var digit := ['0' + (n % 10) as char];
    if n < 10 then digit else Decimal(n / 10) + digit
  }

  /** What is written is read back. */
  lemma {:induction false} DecimalReadsBack(n: nat)
    ensures IsDigits(Decimal(n)) && DigitsValue(Decimal(n)) == n
  {
    var digit := '0' + (n % 10) as char;
    assert (digit - '0') as nat == n % 10;
    if n >= 10 {
      DecimalReadsBack(n / 10);
      var s := Decimal(n);
      assert s[..|s| - 1] == Decimal(n / 10) && s[|s| - 1] == digit;
    } else {
      assert Decimal(n)[..0] == "";
    }
  }
}
