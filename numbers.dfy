/** Number parsing as the views do it with Python's `float(...)` and `int(...)`,
    and the two coercions built on it: the unguarded one the guest editor uses
    for the room rate (an unparsable value raises) and the lenient one used for
    request prices and payslip amounts (an unparsable value reads as 0).
    Values are exact reals: binary floating point is not modelled. */
module Numbers {
  import opened Base
  import opened Text

  predicate IsDigit(c: char) {
    '0' <= c <= '9'
  }

  function DigitValue(c: char): nat
    requires IsDigit(c)
  {
    c as int - '0' as int
  }

  predicate AllDigits(s: string) {
    forall i :: 0 <= i < |s| ==> IsDigit(s[i])
  }

  /** The value of a run of decimal digits, most significant digit first. */
  function DigitsValue(s: string): nat
    requires AllDigits(s)
  {
    if s == [] then 0 else DigitsValue(s[..|s| - 1]) * 10 + DigitValue(s[|s| - 1])
  }

  function Pow10(n: nat): (r: nat)
    ensures r > 0
  {
    if n == 0 then 1 else 10 * Pow10(n - 1)
  }

  /** The length of the run of digits `s` starts with. */
  function LeadingDigits(s: string): (n: nat)
    ensures n <= |s| && AllDigits(s[..n]) && (n == |s| || !IsDigit(s[n]))
  {
    if s != [] && IsDigit(s[0]) then
      var m := LeadingDigits(s[1..]);
      assert s[..m + 1] == [s[0]] + s[1..][..m];
      1 + m
    else 0
  }

  /** `digits`, `digits.`, `.digits` or `digits.digits`, as an exact value;
      None for anything else. */
  function ParseUnsigned(b: string): Option<real> {
    var n := LeadingDigits(b);
    if n == |b| then
      if n == 0 then None else Some(DigitsValue(b[..n]) as real)
    else if b[n] != '.' then None
    else
      var f := b[n + 1..];
      if !AllDigits(f) || (n == 0 && f == []) then None
      else Some(DigitsValue(b[..n]) as real + DigitsValue(f) as real / Pow10(|f|) as real)
  }

  /** An optional leading sign: whether it is a minus, and the rest. */
  function SplitSign(t: string): (bool, string) {
    if t != [] && (t[0] == '-' || t[0] == '+') then (t[0] == '-', t[1..]) else (false, t)
  }

  /** Python's `float(s)` on decimal text: surrounding whitespace, an optional
      sign, then digits with an optional fraction. None where Python raises
      ValueError (exponents, `inf`, `nan` and `_` separators are not modelled). */
  function ParseNumber(s: string): Option<real> {
    var (neg, body) := SplitSign(Strip(s));
    match ParseUnsigned(body)
    case None => None
    case Some(v) => Some(if neg then -v else v)
  }

  /** Python's `int(s)` on text: surrounding whitespace, an optional sign, then
      at least one digit. None where Python raises ValueError. */
  function ParseInt(s: string): Option<int> {
    var (neg, body) := SplitSign(Strip(s));
    if body != [] && AllDigits(body) then
      Some(if neg then -(DigitsValue(body) as int) else DigitsValue(body))
    else None
  }

  /** Neither `int` nor `float` accepts the empty text. */
  lemma ParseIntEmpty()
    ensures ParseInt("") == None && ParseNumber("") == None
  {
    assert Strip("") == "";
  }

  /** `float(v or 0)`: the empty text counts as zero. */
  function NumberOr0(v: string): Option<real> {
    if v == "" then Some(0.0) else ParseNumber(v)
  }

  /** `float(raw.replace(',', '') or 0)` with no handler: None where the view raises. */
  function Amount(raw: string): Option<real> {
    NumberOr0(RemoveCommas(raw))
  }

  /** The same expression wrapped in `except ValueError: return 0.0`. */
  function Lenient(raw: string): real {
    Amount(raw).GetOr(0.0)
  }

  function DigitChar(d: nat): char
    requires d < 10
  {
    ('0' as int + d) as char
  }

  /** The decimal text of a natural number, as `str(n)` writes it. */
  function NatText(n: nat): (s: string)
    ensures s != [] && AllDigits(s)
  {
    if n < 10 then [DigitChar(n)] else NatText(n / 10) + [DigitChar(n % 10)]
  }

  lemma {:induction false} NatTextValue(n: nat)
    ensures DigitsValue(NatText(n)) == n
  {
    if n >= 10 {
      var s := NatText(n);
      assert s[..|s| - 1] == NatText(n / 10);
      NatTextValue(n / 10);
    }
  }

  /** `float` and `int` read back what `str` writes for every natural number. */
  lemma ParseNatText(n: nat)
    ensures ParseNumber(NatText(n)) == Some(n as real)
    ensures ParseInt(NatText(n)) == Some(n)
  {
    var s := NatText(n);
    assert !IsSpace(s[0]) && !IsSpace(s[|s| - 1]);
    StripUnpadded(s);
    assert SplitSign(s) == (false, s);
    NatTextValue(n);
    assert LeadingDigits(s) == |s|;
    assert s[..|s|] == s;
  }

  /** Text without a comma in it. */
  lemma DigitsHaveNoComma(s: string)
    requires AllDigits(s)
    ensures ',' !in s
  {
    forall i | 0 <= i < |s| ensures s[i] != ',' {
      assert IsDigit(s[i]);
    }
  }

  /** The lenient coercion turns the empty text, and any text `float` rejects,
      into 0, and reads a number back from its decimal text. */
  lemma LenientCoercion(raw: string, n: nat)
    ensures Lenient("") == 0.0
    ensures ParseNumber(RemoveCommas(raw)).None? && RemoveCommas(raw) != "" ==> Lenient(raw) == 0.0
    ensures Lenient(NatText(n)) == n as real
  {
    var s := NatText(n);
    ParseNatText(n);
    DigitsHaveNoComma(s);
    RemoveCommasNoComma(s);
  }

  /** A thousands separator is ignored: a comma inside a number's text does not
      change what the lenient coercion reads. */
  lemma {:induction false} LenientIgnoresComma(pre: string, post: string)
    ensures Lenient(pre + "," + post) == Lenient(pre + post)
  {
    assert RemoveCommas(pre + "," + post) == RemoveCommas(pre + post) by {
      RemoveCommasAppend(pre + ",", post);
      RemoveCommasAppend(pre, ",");
      RemoveCommasAppend(pre, post);
      assert RemoveCommas(",") == "";
    }
  }
}
