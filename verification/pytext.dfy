/**
 * The two Python string conversions the game relies on:
 * `str(n)` of an integer (used to build the card values `card_<i>`) and
 * `int(s) if str(s).isdigit() else 0` (used to read the counters posted
 * by the client). Only ASCII digits are modelled.
 */
module PyText {

  /** The decimal digit character for `d`. */
  function DigitChar(d: nat): (c: char)
    requires d < 10
    ensures '0' <= c <= '9' && (c as int) - ('0' as int) == d
  {
    (('0' as int) + d) as char
  }

  /** `str(n)` for a non-negative integer: its decimal digits, no leading zeros. */
  function ShowNat(n: nat): (s: string)
    decreases n
  {
    if n < 10 then [DigitChar(n)] else ShowNat(n / 10) + [DigitChar(n % 10)]
  }

  /** `str(n)` for any Python integer. */
  function Show(n: int): (s: string)
    ensures IsDigits(s) <==> n >= 0
    ensures n >= 0 ==> DigitsValue(s) == n
    ensures n < 0 ==> |s| > 1 && s[0] == '-' && IsDigits(s[1..]) && DigitsValue(s[1..]) == -n
  {
    if n < 0 then
      ShowNatRoundTrip(-n);
      var s := "-" + ShowNat(-n);
      assert s[1..] == ShowNat(-n);
      s
    else
      ShowNatRoundTrip(n);
      ShowNat(n)
  }

  /** `s.isdigit()`, restricted to ASCII: non-empty and made of digits only. */
  predicate IsDigits(s: string)
    ensures IsDigits(s) ==> s != "" && s[0] != '-' && s[0] != '+'
  {
    |s| > 0 && forall i :: 0 <= i < |s| ==> '0' <= s[i] <= '9'
  }

  /** `10` to the power `k`. */
  function Pow10(k: nat): nat
  {
    if k == 0 then 1 else 10 * Pow10(k - 1)
  }

  /** `int(s)` for a string of decimal digits: `k` digits read as less than `10^k`. */
  function DigitsValue(s: string): (v: nat)
    requires forall i :: 0 <= i < |s| ==> '0' <= s[i] <= '9'
    ensures v < Pow10(|s|)
    decreases |s|
  {
    if |s| == 0 then 0
    else DigitsValue(s[..|s| - 1]) * 10 + ((s[|s| - 1] as int) - ('0' as int))
  }

  /** `int(x) if str(x).isdigit() else 0`, applied to the text `s` of `str(x)`. */
  function ParseCount(s: string): (n: nat)
    ensures !IsDigits(s) ==> n == 0
  {
    if IsDigits(s) then DigitsValue(s) else 0
  }

  /** Reading back what `str` printed gives the number again. */
  lemma {:induction false} ShowNatRoundTrip(n: nat)
    ensures IsDigits(ShowNat(n))
    ensures DigitsValue(ShowNat(n)) == n
    decreases n
  {
    if n >= 10 {
      ShowNatRoundTrip(n / 10);
      var s := ShowNat(n);
      assert s[..|s| - 1] == ShowNat(n / 10);
    }
  }

  /**
   * The client's counters survive the round trip through `str` when they are
   * non-negative; a negative number prints with a '-' and so reads as 0.
   */
  lemma ParseShow(n: int)
    ensures ParseCount(Show(n)) == if n >= 0 then n else 0
  {
  }

  /** Distinct numbers print differently. */
  lemma ShowNatInjective(a: nat, b: nat)
    requires ShowNat(a) == ShowNat(b)
    ensures a == b
  {
    ShowNatRoundTrip(a);
    ShowNatRoundTrip(b);
  }
}
