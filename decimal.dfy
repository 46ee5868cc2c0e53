/**
 * Python's `float()` on text, restricted to plain decimal numerals: optional
 * surrounding whitespace, an optional sign, digits with at most one '.', and
 * at least one digit. Anything else is a parse failure (`None`), which the
 * callers turn into their fallback value.
 */
module Decimal {
  import opened Wrappers
  import opened Text

  predicate IsDigit(c: char) {
    '0' <= c <= '9'
  }

  predicate AllDigits(s: string) {
    forall i | 0 <= i < |s| :: IsDigit(s[i])
  }

  /** The characters a numeral may contain. */
  predicate NumeralChar(c: char) {
    IsDigit(c) || c == '.' || c == '+' || c == '-'
  }

  predicate AllNumeral(s: string) {
    forall i | 0 <= i < |s| :: NumeralChar(s[i])
  }

  /** Some character of `s` is a decimal digit. */
  predicate HasDigit(s: string) {
    exists i | 0 <= i < |s| :: IsDigit(s[i])
  }

  /** A digit of `t` is a digit of `s` when every character of `t` is one of `s`. */
  lemma HasDigitOfSub(s: string, t: string)
    requires forall c | c in t :: c in s
    ensures HasDigit(t) ==> HasDigit(s)
  {
    if HasDigit(t) {
      var i :| 0 <= i < |t| && IsDigit(t[i]);
      assert t[i] in s;
    }
  }

  /** Removing a character keeps the digits that remain where they came from. */
  lemma HasDigitRemoveAll(s: string, c: char)
    ensures HasDigit(RemoveAll(s, c)) ==> HasDigit(s)
  {
    forall x | x in RemoveAll(s, c) ensures x in s {
      RemoveAllKeeps(s, c, x);
    }
    HasDigitOfSub(s, RemoveAll(s, c));
  }

  /** `strip()` creates no digit. */
  lemma HasDigitStrip(s: string)
    ensures HasDigit(Strip(s)) ==> HasDigit(s)
  {
    StripKeeps(s);
    HasDigitOfSub(s, Strip(s));
  }

  /** `lower()` creates no digit: a digit is its own lower case and no letter becomes one. */
  lemma HasDigitLower(s: string)
    ensures HasDigit(Lower(s)) ==> HasDigit(s)
  {
    if HasDigit(Lower(s)) {
      var i :| 0 <= i < |s| && IsDigit(Lower(s)[i]);
      assert IsDigit(s[i]);
    }
  }

  /** The natural number a string of decimal digits denotes. */
  function DigitsValue(ds: string): nat
    requires AllDigits(ds)
    decreases |ds|
  {
    if ds == [] then 0
    else 10 * DigitsValue(ds[..|ds| - 1]) + (ds[|ds| - 1] as int - '0' as int)
  }

  function Pow10(n: nat): (r: nat)
    ensures r > 0
  {
    if n == 0 then 1 else 10 * Pow10(n - 1)
  }

  /** Digits with at most one '.', and at least one digit. */
  function ParseUnsigned(s: string): (r: Option<real>)
    ensures r.Some? ==> AllNumeral(s) && r.value >= 0.0
  {
    var ip := BeforeFirst(s, '.');
    if |ip| == |s| then
      if s != [] && AllDigits(s) then Some(DigitsValue(s) as real) else None
    else
      var fp := s[|ip| + 1..];
      if AllDigits(ip) && AllDigits(fp) && |ip| + |fp| > 0 then
        assert s == ip + ['.'] + fp;
        Some(DigitsValue(ip) as real + DigitsValue(fp) as real / Pow10(|fp|) as real)
      else None
  }

  /** A numeral without surrounding whitespace. */
  function ParseNumber(s: string): (r: Option<real>)
    ensures r.Some? ==> s != [] && AllNumeral(s)
  {
    if s != [] && (s[0] == '+' || s[0] == '-') then
      match ParseUnsigned(s[1..])
      case None => None
      case Some(x) => Some(if s[0] == '-' then -x else x)
    else ParseUnsigned(s)
  }

  /** A numeral holds a digit: a sign or a '.' alone does not parse. */
  lemma ParseNumberHasDigit(s: string)
    ensures ParseNumber(s).Some? ==> HasDigit(s)
  {
    var t := if s != [] && (s[0] == '+' || s[0] == '-') then s[1..] else s;
    if ParseUnsigned(t).Some? {
      var ip := BeforeFirst(t, '.');
      if |ip| == |t| {
        assert IsDigit(t[0]);
      } else {
        var fp := t[|ip| + 1..];
        assert t == ip + ['.'] + fp;
        assert if ip != [] then IsDigit(t[0]) else IsDigit(t[|ip| + 1]);
      }
      assert t[0] in s && t[|t| - 1] in s;
      HasDigitOfSub(s, t);
    }
  }

  /** Python `float(s)` on the numerals above: text without a digit never parses. */
  function ParseFloat(s: string): (r: Option<real>)
    ensures r.Some? ==> HasDigit(s) && Strip(s) != []
  {
    HasDigitStrip(s);
    ParseNumberHasDigit(Strip(s));
    ParseNumber(Strip(s))
  }

  /** Only numeral characters and whitespace can parse. */
  lemma ParseFloatChars(s: string)
    ensures ParseFloat(s).Some? ==> forall c | c in s :: NumeralChar(c) || IsSpace(c)
  {
    StripKeeps(s);
    if ParseFloat(s).Some? {
      var t := Strip(s);
      forall c | c in t ensures NumeralChar(c) {
        var i :| 0 <= i < |t| && t[i] == c;
      }
    }
  }

  /** Surrounding whitespace is already ignored by `float()`. */
  lemma ParseFloatOfStripped(s: string)
    ensures ParseFloat(Strip(s)) == ParseFloat(s)
  {
    StripIdempotent(s);
  }

  /** An ASCII letter is neither whitespace nor part of a numeral. */
  lemma LetterIsNotNumeral(c: char)
    requires 'A' <= c <= 'Z' || 'a' <= c <= 'z'
    ensures !IsSpace(c) && !NumeralChar(c)
  {
  }

  /** A numeral character is not whitespace, not a letter and not a currency sign. */
  lemma NumeralCharFacts(c: char)
    requires NumeralChar(c)
    ensures !IsSpace(c) && LowerChar(c) == c && c != '€'
  {
  }

  /** A numeral is non-empty, has no whitespace to strip, no letters and no '€'. */
  lemma NumeralFacts(d: string)
    requires ParseNumber(d).Some?
    ensures d != [] && Strip(d) == d && Lower(d) == d
    ensures forall c | c in d :: NumeralChar(c)
  {
    NumeralCharFacts(d[0]);
    NumeralCharFacts(d[|d| - 1]);
    StripNoOp(d);
    forall i | 0 <= i < |d| ensures Lower(d)[i] == d[i] {
      NumeralCharFacts(d[i]);
    }
  }

  /** A numeral without surrounding whitespace holds no letters, so its case does not matter. */
  lemma ParseNumberOfLower(t: string)
    ensures ParseNumber(Lower(t)) == ParseNumber(t)
  {
    if i :| 0 <= i < |t| && 'A' <= t[i] <= 'Z' {
      LowerOfUpper(t[i]);
      LetterIsNotNumeral(t[i]);
      LetterIsNotNumeral(Lower(t)[i]);
    } else {
      assert Lower(t) == t;
    }
  }

  /** Numerals hold no letters, so `float()` does not care about case. */
  lemma ParseFloatOfLower(s: string)
    ensures ParseFloat(Lower(s)) == ParseFloat(s)
  {
    LowerStrip(s);
    ParseNumberOfLower(Strip(s));
  }

  function DigitChar(d: nat): (c: char)
    requires d < 10
    ensures IsDigit(c) && c as int - '0' as int == d
  {
    (d + '0' as int) as char
  }

  /** The decimal digits of `n`, most significant first, without leading zeros. */
  function Render(n: nat): (r: string)
    ensures r != [] && AllDigits(r)
  {
    if n < 10 then [DigitChar(n)] else Render(n / 10) + [DigitChar(n % 10)]
  }

  lemma {:induction false} DigitsValueOfRender(n: nat)
    ensures DigitsValue(Render(n)) == n
  {
    if n >= 10 {
      var r := Render(n);
      assert r[..|r| - 1] == Render(n / 10);
      DigitsValueOfRender(n / 10);
    }
  }

  /** A non-empty string of digits has nothing to strip. */
  lemma StripDigits(r: string)
    requires r != [] && AllDigits(r)
    ensures Strip(r) == r
  {
    assert IsDigit(r[0]) && IsDigit(r[|r| - 1]);
    StripNoOp(r);
  }

  /** A non-empty string of digits parses as the number it denotes. */
  lemma ParseNumberOfDigits(r: string)
    requires r != [] && AllDigits(r)
    ensures ParseNumber(r) == Some(DigitsValue(r) as real)
  {
    assert BeforeFirst(r, '.') == r by {
      assert forall i | 0 <= i < |r| :: r[i] != '.';
      BeforeFirstAbsent(r, '.');
    }
    assert IsDigit(r[0]);
  }

  /** `float(str(n))` gives `n` back for every natural number `n`. */
  lemma ParseFloatOfRender(n: nat)
    ensures ParseFloat(Render(n)) == Some(n as real)
  {
    var r := Render(n);
    StripDigits(r);
    ParseNumberOfDigits(r);
    DigitsValueOfRender(n);
  }
}
