/** The text the heart-rate handler writes into the rate field. */
module RateFormat {
  import opened Wrappers

  /** The placeholder shown when there is no valid reading: two `&dash;`
      entities, kept as the raw markup the script writes. */
  const Placeholder: string := "&dash;&dash;"

  predicate IsDigit(c: char)
  {
    '0' <= c <= '9'
  }

  predicate AllDigits(s: string)
  {
    forall i :: 0 <= i < |s| ==> IsDigit(s[i])
  }

  /** Canonical decimal text: at least one digit, no leading zero. */
  predicate IsDecimal(s: string)
  {
    |s| > 0 && AllDigits(s) && (s[0] == '0' ==> |s| == 1)
  }

  function DigitChar(d: nat): (c: char)
    requires d < 10
    ensures IsDigit(c) && c as int - '0' as int == d
  {
    ('0' as int + d) as char
  }

  /** The number a string of digits denotes. */
  function DigitsValue(s: string): nat
    requires AllDigits(s)
  {
    if s == [] then 0
    else DigitsValue(s[..|s| - 1]) * 10 + (s[|s| - 1] as int - '0' as int)
  }

  /** How a non-negative integer is rendered as text (what assigning a number
      to `innerHTML` shows): its decimal digits without leading zeros. */
  function DecimalText(n: nat): (s: string)
    ensures IsDecimal(s)
    ensures s[0] == '0' <==> n == 0
    decreases n
  {
    if n < 10 then [DigitChar(n)] else DecimalText(n / 10) + [DigitChar(n % 10)]
  }

  /** Reading the rendered text back gives the number. */
  lemma {:induction false} DecimalRoundTrip(n: nat)
    ensures DigitsValue(DecimalText(n)) == n
    decreases n
  {
    if n >= 10 {
      DecimalRoundTrip(n / 10);
      var s := DecimalText(n);
      assert s[..|s| - 1] == DecimalText(n / 10);
    }
  }

  /** A canonical decimal with a non-zero leading digit denotes a positive number. */
  lemma {:induction false} LeadingDigitPositive(s: string)
    requires IsDecimal(s) && s[0] != '0'
    ensures DigitsValue(s) >= 1
    decreases |s|
  {
    if |s| > 1 {
      var p := s[..|s| - 1];
      assert p[0] == s[0];
      LeadingDigitPositive(p);
    }
  }

  /** Every canonical decimal is the rendering of the number it denotes, so
      rendering is a bijection between naturals and canonical decimals. */
  lemma {:induction false} DecimalTextOfValue(s: string)
    requires IsDecimal(s)
    ensures DecimalText(DigitsValue(s)) == s
    decreases |s|
  {
    var n := DigitsValue(s);
    if |s| == 1 {
      assert DigitsValue(s[..0]) == 0;
    } else {
      var p := s[..|s| - 1];
      assert p[0] == s[0];
      LeadingDigitPositive(p);
      DecimalTextOfValue(p);
      assert n / 10 == DigitsValue(p) && n % 10 == s[|s| - 1] as int - '0' as int;
      assert s == p + [s[|s| - 1]];
    }
  }

  /** `handleHeartrateNotification`'s choice: the reading's text when a
      reading is present and strictly positive, the placeholder otherwise. */
  function RateText(data: Option<int>): (r: string)
    ensures r == Placeholder <==> !(data.Some? && data.value > 0)
    ensures data.Some? && data.value > 0 ==> IsDecimal(r) && DigitsValue(r) == data.value
  {
    if data.Some? && data.value > 0 then
      DecimalRoundTrip(data.value);
      DecimalText(data.value)
    else
      Placeholder
  }
}
