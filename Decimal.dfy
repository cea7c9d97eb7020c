/** Python's `float(text)` restricted to plain decimal notation: surrounding
    whitespace, an optional sign, digits with an optional fraction. Any other
    text is a parse failure (Python raises ValueError). */
module Decimal {
  import opened Wrappers

  /** The whitespace that `float()` strips: the ASCII characters tab, line
      feed, vertical tab, form feed, carriage return and space, and the
      non-ASCII characters `str.isspace` accepts, which `float()` first turns
      into spaces. The ASCII separators U+001C to U+001F are not stripped. */
  predicate IsSpace(c: char) {
    ('\U{0009}' <= c <= '\U{000D}') || c == ' ' ||
    c == '\U{0085}' || c == '\U{00A0}' || c == '\U{1680}' ||
    ('\U{2000}' <= c <= '\U{200A}') || c == '\U{2028}' || c == '\U{2029}' ||
    c == '\U{202F}' || c == '\U{205F}' || c == '\U{3000}'
  }

  predicate IsDigit(c: char) {
    '0' <= c <= '9'
  }

  predicate AllDigits(s: string) {
    forall i :: 0 <= i < |s| ==> IsDigit(s[i])
  }

  function DigitValue(c: char): nat
    requires IsDigit(c)
  {
    c as int - '0' as int
  }

  function DigitChar(d: nat): char
    requires d < 10
  {
    ('0' as int + d) as char
  }

  function StripStart(s: string): string {
    if |s| > 0 && IsSpace(s[0]) then StripStart(s[1..]) else s
  }

  function StripEnd(s: string): string {
    if |s| > 0 && IsSpace(s[|s| - 1]) then StripEnd(s[..|s| - 1]) else s
  }

  /** Python's `s.strip()`: whitespace removed from both ends. */
  function Strip(s: string): string {
    StripEnd(StripStart(s))
  }

  /** Index of the first `c` in `s`, or `|s|` when there is none. */
  function FindChar(s: string, c: char): (r: nat)
    ensures r <= |s|
    ensures r < |s| ==> s[r] == c
    ensures forall j :: 0 <= j < r ==> s[j] != c
  {
    if |s| == 0 || s[0] == c then 0 else 1 + FindChar(s[1..], c)
  }

  /** The integer a string of decimal digits denotes (most significant first). */
  function DigitsValue(s: string): nat
    requires AllDigits(s)
  {
    if |s| == 0 then 0 else 10 * DigitsValue(s[..|s| - 1]) + DigitValue(s[|s| - 1])
  }

  /** The value of the digits after a decimal point. */
  function FractionValue(s: string): real
    requires AllDigits(s)
  {
    if |s| == 0 then 0.0 else (DigitValue(s[0]) as real + FractionValue(s[1..])) / 10.0
  }

  /** Digits, optionally a point and more digits; at least one digit overall. */
  function ParseUnsigned(t: string): Option<real> {
    var dot := FindChar(t, '.');
    if dot == |t| then
      if |t| > 0 && AllDigits(t) then Some(DigitsValue(t) as real) else None
    else
      var whole, fraction := t[..dot], t[dot + 1..];
      if |whole| + |fraction| > 0 && AllDigits(whole) && AllDigits(fraction)
      then Some(DigitsValue(whole) as real + FractionValue(fraction))
      else None
  }

  /** The number `float(text)` yields, or None where it raises. */
  function ParseNumber(text: string): Option<real> {
    var t := Strip(text);
    if |t| > 0 && (t[0] == '+' || t[0] == '-') then
      match ParseUnsigned(t[1..])
      case None => None
      case Some(v) => Some(if t[0] == '-' then -v else v)
    else
      ParseUnsigned(t)
  }

  /** Python's `str(n)` for a non-negative integer. */
  function ShowNat(n: nat): (s: string)
    ensures |s| > 0 && AllDigits(s)
  {
    if n < 10 then [DigitChar(n)] else ShowNat(n / 10) + [DigitChar(n % 10)]
  }

  lemma {:induction false} DigitsOfShowNat(n: nat)
    ensures DigitsValue(ShowNat(n)) == n
  {
    if n >= 10 {
      var s := ShowNat(n);
      assert s[..|s| - 1] == ShowNat(n / 10);
      DigitsOfShowNat(n / 10);
    }
  }

  /** Text of digits, possibly followed by more text that does not end in
      whitespace, is left alone by `strip()` and carries no sign. */
  lemma StripDigitsLed(s: string)
    requires |s| > 0 && IsDigit(s[0]) && !IsSpace(s[|s| - 1])
    ensures Strip(s) == s && s[0] != '+' && s[0] != '-'
  {
  }

  /** Reading back what Python prints for a whole number as an int (`150`)
      gives that number. */
  lemma ParseShowNat(n: nat)
    ensures ParseNumber(ShowNat(n)) == Some(n as real)
  {
    var s := ShowNat(n);
    DigitsOfShowNat(n);
    StripDigitsLed(s);
    assert FindChar(s, '.') == |s|;
  }

  /** Reading back what Python prints for a whole number as a float
      (`150.0`) gives that number. */
  lemma ParseShowNatPointZero(n: nat)
    ensures ParseNumber(ShowNat(n) + ".0") == Some(n as real)
  {
    var s := ShowNat(n);
    DigitsOfShowNat(n);
    var f := s + ".0";
    StripDigitsLed(f);
    assert FindChar(f, '.') == |s| by {
      assert f[|s|] == '.';
      assert forall j :: 0 <= j < |s| ==> f[j] == s[j];
    }
    assert f[..|s|] == s && f[|s| + 1..] == "0";
    assert AllDigits("0") && FractionValue("0") == 0.0;
    assert ParseUnsigned(f) == Some(n as real);
  }

  /** A trailing no-break space, as spreadsheets leave behind, is stripped
      like any other whitespace. */
  lemma NoBreakSpaceStripped(n: nat)
    ensures ParseNumber(ShowNat(n) + "\U{00A0}") == Some(n as real)
  {
    var s := ShowNat(n);
    var t := s + "\U{00A0}";
    assert t[..|t| - 1] == s;
    StripDigitsLed(s);
    assert StripEnd(t) == StripEnd(s);
    assert StripStart(t) == t;
    ParseShowNat(n);
  }

  /** A trailing information separator (U+001C) is not whitespace to
      `float()`: a whole number followed by one does not parse. */
  lemma SeparatorNotStripped(n: nat)
    ensures ParseNumber(ShowNat(n) + "\U{001C}") == None
  {
    var t := ShowNat(n) + "\U{001C}";
    StripDigitsLed(t);
    assert FindChar(t, '.') == |t| by {
      assert forall j :: 0 <= j < |t| ==> t[j] != '.';
    }
    assert !IsDigit(t[|t| - 1]);
  }

  /** Text that is not a number does not parse. */
  lemma NotANumber()
    ensures ParseNumber("N/A") == None
    ensures ParseNumber("") == None
    ensures ParseNumber(".") == None
  {
  }
}
