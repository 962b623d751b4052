/**
 * `Number(text)` on the decimal text the forms hold: surrounding white space
 * is ignored, the empty text is 0, and otherwise an optional sign, digits,
 * and an optional '.' with more digits (at least one digit in all) give a
 * number; anything else is NaN. A standard input holds either the stored
 * number it was opened with or the text typed into it.
 */
module Numbers {
  import opened Js
  import opened Strings

  predicate AllDigits(s: string) {
    forall i :: 0 <= i < |s| ==> IsDigit(s[i])
  }

  /** The value of a string of decimal digits. */
  function DigitsValue(s: string): (v: nat)
    requires AllDigits(s)
  {
    if s == [] then 0
    else DigitsValue(s[..|s| - 1]) * 10 + (s[|s| - 1] as int - '0' as int)
  }

  /** The value of the digits after a decimal point: 0.d1d2... */
  function FractionValue(s: string): (v: real)
    requires AllDigits(s)
  {
    if s == [] then 0.0
    else ((s[0] as int - '0' as int) as real + FractionValue(s[1..])) / 10.0
  }

  /** Unsigned decimal text: digits, optionally a '.' and more digits, at least one digit. */
  function UnsignedDecimal(body: string): JsNum {
    var dot := IndexOf(body, '.');
    var intPart := if dot < 0 then body else body[..dot];
    var fracPart := if dot < 0 then "" else body[dot + 1..];
    if AllDigits(intPart) && AllDigits(fracPart) && |intPart| + |fracPart| > 0 then
      Num(DigitsValue(intPart) as real + FractionValue(fracPart))
    else
      NaN
  }

  function Number(text: string): (n: JsNum)
    ensures Trim(text) == "" ==> n == Num(0.0)
  {
    var t := Trim(text);
    if t == "" then Num(0.0)
    else if t[0] == '-' then
      match UnsignedDecimal(t[1..])
      case NaN => NaN
      case Num(v) => Num(-v)
    else if t[0] == '+' then UnsignedDecimal(t[1..])
    else UnsignedDecimal(t)
  }

  /** Text of digits alone is read as the number they spell. */
  lemma NumberOfDigits(s: string)
    requires s != [] && AllDigits(s)
    ensures Number(s) == Num(DigitsValue(s) as real)
  {
    TrimOfWord(s);
    assert '.' !in s by {
      forall i | 0 <= i < |s| ensures s[i] != '.' {
        assert IsDigit(s[i]);
      }
    }
  }

  /** A string whose first and last characters are not white space is its own trim. */
  lemma TrimOfWord(s: string)
    requires s != [] && !IsSpace(s[0]) && !IsSpace(s[|s| - 1])
    ensures Trim(s) == s
  {
  }

  /** `Number(x) || 0`: text that is not a number counts as 0. */
  function NumberOrZero(text: string): (v: real)
    ensures Number(text).NaN? ==> v == 0.0
    ensures Number(text).Num? ==> v == Number(text).value
  {
    OrZero(Number(text))
  }

  /**
   * What a standard numeric input holds: the stored number the form was
   * opened with, until the user types, and from then on the typed text.
   */
  datatype Input = Held(amount: real) | Typed(text: string)

  /** The empty input `''`. */
  const EmptyInput: Input := Typed("")

  /** `!!input`: a held number is truthy unless it is 0, typed text unless it is empty. */
  predicate Filled(x: Input) {
    match x
    case Held(n) => n != 0.0
    case Typed(t) => Truthy(t)
  }

  /** `Number(input)`: a held number is itself, typed text is read. */
  function InputNumber(x: Input): JsNum {
    match x
    case Held(n) => Num(n)
    case Typed(t) => Number(t)
  }

  /** `Number(input) || 0`. */
  function InputOrZero(x: Input): (v: real)
    ensures x.Typed? ==> v == NumberOrZero(x.text)
    ensures x.Held? ==> v == x.amount
  {
    OrZero(InputNumber(x))
  }

  /** `amount || ''`: the input a stored amount opens with; a stored 0 opens empty. */
  function ShowAmount(amount: real): (x: Input)
    ensures Filled(x) <==> amount != 0.0
    ensures !Filled(x) ==> x == EmptyInput
  {
    if amount == 0.0 then EmptyInput else Held(amount)
  }

  /** An input opened on a stored amount and left untouched reads back as the amount. */
  lemma ShowAmountRoundTrip(amount: real)
    ensures InputOrZero(ShowAmount(amount)) == amount
  {
  }

  function DigitChar(d: nat): char
    requires d < 10
  {
    ('0' as int + d) as char
  }

  /** `String(n)` for a natural number: its decimal digits, without leading zeros. */
  function NatToString(n: nat): (s: string)
    ensures s != [] && AllDigits(s)
  {
    if n < 10 then [DigitChar(n)] else NatToString(n / 10) + [DigitChar(n % 10)]
  }

  /** The digits of n spell n. */
  lemma {:induction false} NatToStringValue(n: nat)
    ensures DigitsValue(NatToString(n)) == n
  {
    var s := NatToString(n);
    if n >= 10 {
      NatToStringValue(n / 10);
      assert s[..|s| - 1] == NatToString(n / 10);
    }
  }

  /** Reading back the text of a natural number gives the number. */
  lemma NatToStringRoundTrip(n: nat)
    ensures Number(NatToString(n)) == Num(n as real)
  {
    NatToStringValue(n);
    NumberOfDigits(NatToString(n));
  }

  /** Distinct numbers have distinct texts. */
  lemma NatToStringInjective(m: nat, n: nat)
    requires NatToString(m) == NatToString(n)
    ensures m == n
  {
    NatToStringValue(m);
    NatToStringValue(n);
  }
}
