/** How `f"Amount: {amount}"` renders an order amount that arrived as a JSON
    number: Python's `str` of a float with two fractional digits prints the
    integer part, a point, and the fractional digits without trailing zeros
    but at least one (`1500.0`, `19.9`, `19.99`, `-0.05`). */
module Decimal {
  import opened Models

  predicate IsDigit(ch: char) {
    '0' <= ch <= '9'
  }

  predicate AllDigits(s: string) {
    forall i :: 0 <= i < |s| ==> IsDigit(s[i])
  }

  function DigitValue(ch: char): nat
    requires IsDigit(ch)
  {
    ch as int - '0' as int
  }

  function DigitChar(d: nat): (ch: char)
    requires d < 10
    ensures IsDigit(ch) && DigitValue(ch) == d
  {
    ('0' as int + d) as char
  }

  /** The decimal digits of `n`, without leading zeros. */
  function NatText(n: nat): (s: string)
    ensures |s| > 0 && AllDigits(s)
  {
    if n < 10 then [DigitChar(n)] else NatText(n / 10) + [DigitChar(n % 10)]
  }

  /** The number a string of decimal digits denotes. */
  function DigitsValue(s: string): nat
    requires AllDigits(s)
  {
    if s == [] then 0 else DigitsValue(s[..|s| - 1]) * 10 + DigitValue(s[|s| - 1])
  }

  lemma {:induction false} NatTextValue(n: nat)
    ensures DigitsValue(NatText(n)) == n
  {
    if n >= 10 {
      NatTextValue(n / 10);
      var s := NatText(n);
      assert s[..|s| - 1] == NatText(n / 10);
    }
  }

  /** The fractional digits printed for `f` hundredths. */
  function FractionText(f: nat): string
    requires f < 100
  {
    if f % 10 == 0 then [DigitChar(f / 10)] else [DigitChar(f / 10), DigitChar(f % 10)]
  }

  /** The text of `amount` (in hundredths) inside the order details. */
  function AmountText(amount: Cents): string {
    var m := if amount < 0 then -amount else amount;
    (if amount < 0 then "-" else "") + NatText(m / 100) + "." + FractionText(m % 100)
  }

  /** Reads back an amount written as digits, a point and one or two digits. */
  function ParseUnsigned(s: string): Option<nat> {
    if |s| >= 3 && s[|s| - 2] == '.' && AllDigits(s[..|s| - 2]) && IsDigit(s[|s| - 1]) then
      Some(DigitsValue(s[..|s| - 2]) * 100 + DigitValue(s[|s| - 1]) * 10)
    else if |s| >= 4 && s[|s| - 3] == '.' && AllDigits(s[..|s| - 3]) && IsDigit(s[|s| - 2]) && IsDigit(s[|s| - 1]) then
      Some(DigitsValue(s[..|s| - 3]) * 100 + DigitValue(s[|s| - 2]) * 10 + DigitValue(s[|s| - 1]))
    else
      None
  }

  /** Reads back an amount, with an optional leading minus sign. */
  function ParseAmount(s: string): Option<Cents> {
    if |s| > 0 && s[0] == '-' then
      match ParseUnsigned(s[1..])
      case Some(m) => Some(-(m as int))
      case None => None
    else
      ParseUnsigned(s)
  }

  lemma UnsignedRoundTrip(m: nat)
    ensures ParseUnsigned(NatText(m / 100) + "." + FractionText(m % 100)) == Some(m)
  {
    var w := NatText(m / 100);
    var f := m % 100;
    var s := w + "." + FractionText(f);
    NatTextValue(m / 100);
    if f % 10 == 0 {
      assert s[..|s| - 2] == w;
      assert s[|s| - 2] == '.';
    } else {
      assert s[..|s| - 3] == w;
      assert s[|s| - 3] == '.';
      assert s[|s| - 2] != '.';
    }
  }

  /** The amount's text determines the amount: the message carries it exactly. */
  lemma AmountTextRoundTrip(amount: Cents)
    ensures ParseAmount(AmountText(amount)) == Some(amount)
  {
    var m := if amount < 0 then -amount else amount;
    var u := NatText(m / 100) + "." + FractionText(m % 100);
    UnsignedRoundTrip(m);
    if amount < 0 {
      assert AmountText(amount) == "-" + u;
      assert ("-" + u)[1..] == u;
    } else {
      assert AmountText(amount) == u;
      assert IsDigit(u[0]);
    }
  }
}
