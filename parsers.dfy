/**
 * The two value parsers of the server: `get_primary_position`, identical in
 * both variants, and `convert_value_to_millions`, which is case-insensitive and
 * strips whitespace in the database variant and does neither in the spreadsheet
 * variant.
 */
module Parsers {
  import opened Wrappers
  import opened Text
  import opened Decimal
  import opened Cells

  /** The position codes `get_primary_position` returns; `NA` when none applies. */
  datatype Position = GK | DF | MF | FW | NA

  /** The code as the response spells it. */
  function Code(p: Position): string {
    match p
    case GK => "GK"
    case DF => "DF"
    case MF => "MF"
    case FW => "FW"
    case NA => "NA"
  }

  /** The order in which the codes are tested: goalkeeper first, forward last. */
  function Rank(p: Position): nat {
    match p
    case GK => 0
    case DF => 1
    case MF => 2
    case FW => 3
    case NA => 4
  }

  /**
   * The code found in `token` that comes first in the order GK, DF, MF, FW,
   * or `NA` when the token contains none of them.
   */
  function Classify(token: string): (r: Position)
    ensures r != NA ==> Contains(token, Code(r))
    ensures forall p: Position | p != NA && Contains(token, Code(p)) :: Rank(r) <= Rank(p)
  {
    if Contains(token, "GK") then GK
    else if Contains(token, "DF") then DF
    else if Contains(token, "MF") then MF
    else if Contains(token, "FW") then FW
    else NA
  }

  /** The part of a position string that is examined: before the first ',' and then the first '/', stripped and upper-cased. */
  function FirstToken(s: string): string {
    Upper(Strip(Head(s)))
  }

  /**
   * `get_primary_position`. A missing or empty value is `NA`; so is a number,
   * since the text of a Python number contains none of the codes.
   */
  function PrimaryPosition(c: Cell): (r: Position)
    ensures c.Null? || c.Num? || c == Text("") ==> r == NA
    ensures r != NA ==> c.Text? && Contains(FirstToken(c.text), Code(r))
    ensures c.Text? && c.text != "" ==>
              forall p: Position | p != NA && Contains(FirstToken(c.text), Code(p)) :: Rank(r) <= Rank(p)
  {
    match c
    case Null => NA
    case Num(_) => NA
    case Text(s) => if s == "" then NA else Classify(FirstToken(s))
  }

  /** The classification of a token is the one its two contract clauses describe and no other. */
  lemma ClassifyUnique(token: string, q: Position)
    requires q != NA ==> Contains(token, Code(q))
    requires forall p: Position | p != NA && Contains(token, Code(p)) :: Rank(q) <= Rank(p)
    ensures q == Classify(token)
  {
    var r := Classify(token);
    if q != NA { assert Rank(r) <= Rank(q); }
    if r != NA { assert Rank(q) <= Rank(r); }
  }

  lemma ClassifyEmpty()
    ensures Classify("") == NA
  {
  }

  /** The text `FirstToken` starts from. */
  function Head(s: string): string {
    BeforeFirst(BeforeFirst(s, ','), '/')
  }

  lemma {:induction false} HeadBeforeComma(a: string, b: string)
    ensures Head(a + [','] + b) == Head(a)
  {
    BeforeFirstOfJoin(a, ',', b);
  }

  lemma {:induction false} HeadBeforeSlash(a: string, b: string)
    ensures Head(a + ['/'] + b) == Head(a)
  {
    var s := a + ['/'] + b;
    assert s == a + (['/'] + b);
    BeforeFirstAppend(a, ['/'] + b, ',');
    if ',' !in a {
      BeforeFirstAbsent(a, ',');
      BeforeFirstAppend(['/'], b, ',');
      assert a + BeforeFirst(['/'] + b, ',') == a + ['/'] + BeforeFirst(b, ',');
      BeforeFirstOfJoin(a, '/', BeforeFirst(b, ','));
    }
  }

  /** Only the text before the first ',' is examined: `'DF,MF'` is classified like `'DF'`. */
  lemma PositionBeforeComma(a: string, b: string)
    ensures PrimaryPosition(Text(a + [','] + b)) == PrimaryPosition(Text(a))
  {
    HeadBeforeComma(a, b);
    if a == "" {
      assert Head(a) == "";
      ClassifyEmpty();
    }
  }

  /** Only the text before the first '/' is examined: `'FW/MF'` is classified like `'FW'`. */
  lemma PositionBeforeSlash(a: string, b: string)
    ensures PrimaryPosition(Text(a + ['/'] + b)) == PrimaryPosition(Text(a))
  {
    HeadBeforeSlash(a, b);
    if a == "" {
      assert Head(a) == "";
      ClassifyEmpty();
    }
  }

  /** A two-letter upper-case token is its own first token. */
  lemma FirstTokenOfTwoLetters(s: string)
    requires |s| == 2 && 'A' <= s[0] <= 'Z' && 'A' <= s[1] <= 'Z'
    ensures FirstToken(s) == s
  {
    LetterIsNotNumeral(s[0]);
    LetterIsNotNumeral(s[1]);
    BeforeFirstAbsent(s, ',');
    BeforeFirstAbsent(s, '/');
    StripNoOp(s);
    assert Upper(s) == s;
  }

  /** A value spelled exactly like a position code is classified as that position. */
  lemma PositionOfCode(p: Position)
    requires p != NA
    ensures PrimaryPosition(Text(Code(p))) == p
  {
    var x := Code(p);
    CodeLetters(p);
    FirstTokenOfTwoLetters(x);
    ClassifyCode(p);
  }

  /** Every code is two upper-case letters. */
  lemma CodeLetters(p: Position)
    ensures |Code(p)| == 2 && 'A' <= Code(p)[0] <= 'Z' && 'A' <= Code(p)[1] <= 'Z'
  {
  }

  /** Each code classifies as itself. */
  lemma ClassifyCode(p: Position)
    ensures Classify(Code(p)) == p
  {
    var x := Code(p);
    ContainsSameLength(x, "GK");
    ContainsSameLength(x, "DF");
    ContainsSameLength(x, "MF");
    ContainsSameLength(x, "FW");
    if p == NA {
      assert x == "NA";
    }
  }

  /** `'DF,MF'` is DF, and a missing or empty value is NA. */
  lemma PositionExamples(a: string)
    requires a == "DF,MF"
    ensures PrimaryPosition(Text(a)) == DF
    ensures PrimaryPosition(Null) == NA && PrimaryPosition(Text("")) == NA
  {
    var x, y := a[..2], a[3..];
    assert a == x + [','] + y;
    PositionBeforeComma(x, y);
    assert x == Code(DF);
    PositionOfCode(DF);
  }

  /** `'FW/MF'` is FW. */
  lemma PositionSlashExample(b: string)
    requires b == "FW/MF"
    ensures PrimaryPosition(Text(b)) == FW
  {
    var u, v := b[..2], b[3..];
    assert b == u + ['/'] + v;
    PositionBeforeSlash(u, v);
    assert u == Code(FW);
    PositionOfCode(FW);
  }

  /** A parsed number divided by `unit`, or 0.0 when parsing failed (the `except` branch). */
  function Scaled(parsed: Option<real>, unit: real): real
    requires unit > 0.0
  {
    match parsed
    case Some(x) => x / unit
    case None => 0.0
  }

  /** The text the database variant inspects: '€' removed, stripped, lower-cased. */
  function CleanedPg(s: string): string {
    Lower(Strip(RemoveAll(s, '€')))
  }

  /**
   * `convert_value_to_millions`, database variant, on the text of the value:
   * drop '€', strip, then test for 'm' or 'k' in the lower-cased text. Text
   * without a digit is worth nothing.
   */
  function MillionsPg(s: string): (r: real)
    ensures !HasDigit(s) ==> r == 0.0
  {
    var v := Strip(RemoveAll(s, '€'));
    var lv := CleanedPg(s);
    CleanedPgDigits(s);
    if 'm' in lv then Scaled(ParseFloat(RemoveAll(lv, 'm')), 1.0)
    else if 'k' in lv then Scaled(ParseFloat(RemoveAll(lv, 'k')), 1000.0)
    else Scaled(ParseFloat(v), 1000000.0)
  }

  /**
   * `convert_value_to_millions`, spreadsheet variant: drop '€' and test for
   * 'm' or 'k' exactly as written, without stripping or lower-casing. Text
   * without a digit is worth nothing.
   */
  function MillionsXl(s: string): (r: real)
    ensures !HasDigit(s) ==> r == 0.0
  {
    var v := RemoveAll(s, '€');
    CleanedXlDigits(s);
    if 'm' in v then Scaled(ParseFloat(RemoveAll(v, 'm')), 1.0)
    else if 'k' in v then Scaled(ParseFloat(RemoveAll(v, 'k')), 1000.0)
    else Scaled(ParseFloat(v), 1000000.0)
  }

  /** Cleaning adds no digit: what the database variant parses has one only when the text does. */
  lemma CleanedPgDigits(s: string)
    ensures var v := Strip(RemoveAll(s, '€'));
            !HasDigit(s) ==>
              !HasDigit(v) && !HasDigit(RemoveAll(CleanedPg(s), 'm')) && !HasDigit(RemoveAll(CleanedPg(s), 'k'))
  {
    var v := Strip(RemoveAll(s, '€'));
    HasDigitRemoveAll(s, '€');
    HasDigitStrip(RemoveAll(s, '€'));
    HasDigitLower(v);
    HasDigitRemoveAll(CleanedPg(s), 'm');
    HasDigitRemoveAll(CleanedPg(s), 'k');
  }

  /** Removing '€', 'm' or 'k' adds no digit. */
  lemma CleanedXlDigits(s: string)
    ensures var v := RemoveAll(s, '€');
            !HasDigit(s) ==> !HasDigit(v) && !HasDigit(RemoveAll(v, 'm')) && !HasDigit(RemoveAll(v, 'k'))
  {
    var v := RemoveAll(s, '€');
    HasDigitRemoveAll(s, '€');
    HasDigitRemoveAll(v, 'm');
    HasDigitRemoveAll(v, 'k');
  }

  /** '€' + d + c with the '€' removed is d + c. */
  lemma DropEuro(d: string, c: char)
    requires '€' !in d && c != '€'
    ensures RemoveAll("€" + d + [c], '€') == d + [c]
  {
    RemoveAllAppend("€" + d, [c], '€');
    RemoveAllAppend("€", d, '€');
  }

  /** d + c with every c removed is d, when d holds no c. */
  lemma DropSuffix(d: string, c: char)
    requires c !in d
    ensures RemoveAll(d + [c], c) == d
  {
    RemoveAllAppend(d, [c], c);
  }

  /** d + c is its own strip and its own lower case when d is a numeral and c a lower-case letter. */
  lemma NumeralWithLetter(d: string, c: char)
    requires ParseNumber(d).Some? && 'a' <= c <= 'z'
    ensures Strip(d + [c]) == d + [c] && Lower(d + [c]) == d + [c]
    ensures Lower(d + [UpperChar(c)]) == d + [c]
  {
    NumeralFacts(d);
    NumeralCharFacts(d[0]);
    LetterIsNotNumeral(c);
    StripNoOp(d + [c]);
    assert Lower(d + [c]) == Lower(d) + [c];
    assert Lower(d + [UpperChar(c)]) == Lower(d) + [c];
  }

  /** '€' + d + c, for a numeral d and a suffix letter c of either case, as the database variant sees it. */
  lemma PgSuffixed(d: string, c: char)
    requires ParseNumber(d).Some? && 'a' <= c <= 'z'
    ensures Lower(Strip(RemoveAll("€" + d + [c], '€'))) == d + [c]
    ensures Lower(Strip(RemoveAll("€" + d + [UpperChar(c)], '€'))) == d + [c]
  {
    NumeralFacts(d);
    LetterIsNotNumeral(c);
    LetterIsNotNumeral(UpperChar(c));
    DropEuro(d, c);
    DropEuro(d, UpperChar(c));
    NumeralWithLetter(d, c);
    NumeralCharFacts(d[0]);
    StripNoOp(d + [UpperChar(c)]);
  }

  /**
   * The database variant's 'm' branch, on any text: an 'm' anywhere in the
   * cleaned text sends it here; every 'm' is removed and what is left is
   * millions, or 0.0 when it does not parse.
   */
  lemma PgMillionsBranch(s: string, rest: Option<real>)
    requires 'm' in CleanedPg(s) && ParseFloat(RemoveAll(CleanedPg(s), 'm')) == rest
    ensures rest.Some? ==> MillionsPg(s) == rest.value
    ensures rest.None? ==> MillionsPg(s) == 0.0
  {
  }

  /**
   * The database variant's 'k' branch, on any text: with no 'm' but a 'k'
   * anywhere, every 'k' is removed and what is left is thousands, or 0.0 when
   * it does not parse.
   */
  lemma PgThousandsBranch(s: string, rest: Option<real>)
    requires 'm' !in CleanedPg(s) && 'k' in CleanedPg(s)
    requires ParseFloat(RemoveAll(CleanedPg(s), 'k')) == rest
    ensures rest.Some? ==> MillionsPg(s) == rest.value / 1000.0
    ensures rest.None? ==> MillionsPg(s) == 0.0
  {
  }

  /**
   * The database variant's last branch, on any text: with neither letter, the
   * stripped text is units, or 0.0 when it does not parse.
   */
  lemma PgUnitsBranch(s: string, rest: Option<real>)
    requires 'm' !in CleanedPg(s) && 'k' !in CleanedPg(s)
    requires ParseFloat(Strip(RemoveAll(s, '€'))) == rest
    ensures rest.Some? ==> MillionsPg(s) == rest.value / 1000000.0
    ensures rest.None? ==> MillionsPg(s) == 0.0
  {
  }

  lemma PgMillionsSuffix(d: string, x: real)
    requires ParseNumber(d) == Some(x)
    ensures MillionsPg("€" + d + "m") == x && MillionsPg("€" + d + "M") == x
  {
    assert Lower(Strip(RemoveAll("€" + d + "m", '€'))) == d + "m" by { PgSuffixed(d, 'm'); }
    assert Lower(Strip(RemoveAll("€" + d + "M", '€'))) == d + "m" by { PgSuffixed(d, 'm'); }
    assert RemoveAll(d + "m", 'm') == d by { NumeralFacts(d); DropSuffix(d, 'm'); }
    assert ParseFloat(d) == Some(x) by { NumeralFacts(d); }
    PgMillionsBranch("€" + d + "m", Some(x));
    PgMillionsBranch("€" + d + "M", Some(x));
  }

  lemma PgThousandsSuffix(d: string, x: real)
    requires ParseNumber(d) == Some(x)
    ensures MillionsPg("€" + d + "k") == x / 1000.0 && MillionsPg("€" + d + "K") == x / 1000.0
  {
    var t := d + "k";
    assert CleanedPg("€" + d + "k") == t && CleanedPg("€" + d + "K") == t by { PgSuffixed(d, 'k'); }
    assert 'm' !in d && 'k' !in d by {
      NumeralFacts(d);
      LetterIsNotNumeral('m');
      LetterIsNotNumeral('k');
    }
    assert 'm' !in t && 'k' in t by { assert t[|d|] == 'k'; }
    DropSuffix(d, 'k');
    assert ParseFloat(d) == Some(x) by { NumeralFacts(d); }
    PgThousandsBranch("€" + d + "k", Some(x));
    PgThousandsBranch("€" + d + "K", Some(x));
  }

  lemma PgBare(d: string, x: real)
    requires ParseNumber(d) == Some(x)
    ensures MillionsPg(d) == x / 1000000.0
  {
    assert RemoveAll(d, '€') == d by { NumeralFacts(d); }
    assert Strip(d) == d && Lower(d) == d by { NumeralFacts(d); }
    assert 'm' !in d && 'k' !in d by { NumeralFacts(d); }
    assert ParseFloat(d) == Some(x) by { NumeralFacts(d); }
  }

  /**
   * The database variant on the three spellings it expects: a numeral with an
   * 'm' or 'M' suffix is millions, with 'k' or 'K' thousands, and a bare numeral units.
   */
  lemma MillionsPgOfNumeral(d: string, x: real)
    requires ParseNumber(d) == Some(x)
    ensures MillionsPg("€" + d + "m") == x && MillionsPg("€" + d + "M") == x
    ensures MillionsPg("€" + d + "k") == x / 1000.0 && MillionsPg("€" + d + "K") == x / 1000.0
    ensures MillionsPg(d) == x / 1000000.0
  {
    PgMillionsSuffix(d, x);
    PgThousandsSuffix(d, x);
    PgBare(d, x);
  }

  /**
   * The spreadsheet variant's 'm' and 'k' branches, on any text: a
   * lower-case c anywhere in the text once its '€' signs are gone ('k' only
   * when there is no 'm') sends it here; every c is removed and what is left
   * is read as millions ('m') or thousands ('k'), or 0.0 when it does not parse.
   */
  lemma XlSuffixBranch(s: string, c: char, rest: Option<real>)
    requires c == 'm' || c == 'k'
    requires c in RemoveAll(s, '€') && (c == 'k' ==> 'm' !in RemoveAll(s, '€'))
    requires ParseFloat(RemoveAll(RemoveAll(s, '€'), c)) == rest
    ensures rest.Some? ==> MillionsXl(s) == if c == 'm' then rest.value else rest.value / 1000.0
    ensures rest.None? ==> MillionsXl(s) == 0.0
  {
  }

  lemma XlSuffix(d: string, x: real)
    requires ParseNumber(d) == Some(x)
    ensures MillionsXl("€" + d + "m") == x && MillionsXl("€" + d + "k") == x / 1000.0
  {
    assert RemoveAll("€" + d + "m", '€') == d + "m" by { NumeralFacts(d); DropEuro(d, 'm'); }
    assert RemoveAll("€" + d + "k", '€') == d + "k" by { NumeralFacts(d); DropEuro(d, 'k'); }
    assert 'm' !in d && 'k' !in d by { NumeralFacts(d); }
    assert RemoveAll(d + "m", 'm') == d by { NumeralFacts(d); DropSuffix(d, 'm'); }
    assert RemoveAll(d + "k", 'k') == d by { NumeralFacts(d); DropSuffix(d, 'k'); }
    assert ParseFloat(d) == Some(x) by { NumeralFacts(d); }
    assert 'm' in d + "m" && 'k' in d + "k" by {
      assert (d + "m")[|d|] == 'm' && (d + "k")[|d|] == 'k';
    }
    XlSuffixBranch("€" + d + "m", 'm', Some(x));
    XlSuffixBranch("€" + d + "k", 'k', Some(x));
  }

  lemma XlUpperSuffix(d: string)
    requires ParseNumber(d).Some?
    ensures MillionsXl("€" + d + "M") == 0.0 && MillionsXl("€" + d + "K") == 0.0
  {
    assert "€" + d + "M" == "€" + (d + "M") && "€" + d + "K" == "€" + (d + "K");
    assert 'M' in "€" + d + "M" && 'K' in "€" + d + "K" by {
      assert ("€" + d + "M")[|d| + 1] == 'M';
      assert ("€" + d + "K")[|d| + 1] == 'K';
    }
    MillionsXlUnparsedLetter("€" + d + "M", 'M');
    MillionsXlUnparsedLetter("€" + d + "K", 'K');
  }

  /**
   * The spreadsheet variant on the same spellings: only the lower-case
   * suffixes are recognised, and an upper-case one makes the text unparseable.
   */
  lemma MillionsXlOfNumeral(d: string, x: real)
    requires ParseNumber(d) == Some(x)
    ensures MillionsXl("€" + d + "m") == x && MillionsXl("€" + d + "k") == x / 1000.0
    ensures MillionsXl(d) == x / 1000000.0
    ensures MillionsXl("€" + d + "M") == 0.0 && MillionsXl("€" + d + "K") == 0.0
  {
    XlSuffix(d, x);
    XlUpperSuffix(d);
    XlBare(d, x);
  }

  /** A bare numeral is read as euros in the spreadsheet variant too. */
  lemma XlBare(d: string, x: real)
    requires ParseNumber(d) == Some(x)
    ensures MillionsXl(d) == x / 1000000.0
  {
    assert '€' !in d && 'm' !in d && 'k' !in d by {
      NumeralFacts(d);
      assert !NumeralChar('€') && !NumeralChar('m') && !NumeralChar('k');
    }
    assert RemoveAll(d, '€') == d;
    assert ParseFloat(d) == Some(x) by { NumeralFacts(d); }
  }

  /**
   * In the spreadsheet variant, an upper-case letter left in the text after
   * the 'm'/'k' tests makes `float()` fail, so the value is 0.0: `'70.00M'` is
   * 0.0. The letters of an exponent, "INF", "INFINITY" and "NAN" are excluded,
   * as `float()` can read those.
   */
  lemma MillionsXlUnparsedLetter(s: string, c: char)
    requires 'A' <= c <= 'Z' && c !in "AEFINTY" && c in s && 'm' !in s && 'k' !in s
    ensures MillionsXl(s) == 0.0
  {
    var v := RemoveAll(s, '€');
    assert 'm' !in v && 'k' !in v && c in v by {
      RemoveAllKeeps(s, '€', 'm');
      RemoveAllKeeps(s, '€', 'k');
      RemoveAllKeeps(s, '€', c);
    }
    assert ParseFloat(v).None? by {
      LetterIsNotNumeral(c);
      ParseFloatChars(v);
    }
  }

  /** The database variant does not depend on letter case. */
  lemma MillionsPgOfLower(s: string)
    ensures MillionsPg(Lower(s)) == MillionsPg(s)
  {
    var u := RemoveAll(s, '€');
    LowerRemoveAll(s, '€');
    LowerStrip(u);
    LowerIdempotent(Strip(u));
    ParseFloatOfLower(Strip(u));
  }

  /**
   * The two variants agree on text that is already stripped and lower-case
   * once the '€' signs are gone; they differ only on case and surrounding
   * whitespace.
   */
  lemma MillionsVariantsAgree(s: string)
    requires Strip(RemoveAll(s, '€')) == RemoveAll(s, '€') && Lower(RemoveAll(s, '€')) == RemoveAll(s, '€')
    ensures MillionsPg(s) == MillionsXl(s)
  {
  }

  /**
   * A word that starts with a letter, holds no '€', no whitespace at its ends,
   * and no 'm' or 'k' in either case does not parse: the database variant
   * gives 0.0. The words `float()` reads as infinity or NaN are excluded.
   */
  lemma MillionsPgOfWord(s: string)
    requires |s| > 0 && ('A' <= s[0] <= 'Z' || 'a' <= s[0] <= 'z') && !IsSpace(s[|s| - 1])
    requires Lower(s) != "inf" && Lower(s) != "infinity" && Lower(s) != "nan"
    requires forall i | 0 <= i < |s| :: s[i] != '€' && LowerChar(s[i]) != 'm' && LowerChar(s[i]) != 'k'
    ensures MillionsPg(s) == 0.0
  {
    assert RemoveAll(s, '€') == s;
    LetterIsNotNumeral(s[0]);
    StripNoOp(s);
    var lv := Lower(s);
    assert 'm' !in lv && 'k' !in lv;
  }

  /** `str(None)` is "None", which the database variant cannot parse: 0.0. */
  lemma MillionsPgOfNone(s: string)
    requires s == "None"
    ensures MillionsPg(s) == 0.0
  {
    assert forall i | 0 <= i < |s| :: s[i] != '€' && LowerChar(s[i]) != 'm' && LowerChar(s[i]) != 'k';
    MillionsPgOfWord(s);
  }

  /** Both variants read the numeral of a whole number `n` (as `str(n)` spells it) as n / 1,000,000. */
  lemma MillionsOfRender(n: nat)
    ensures MillionsPg(Render(n)) == (n as real) / 1000000.0
    ensures MillionsXl(Render(n)) == (n as real) / 1000000.0
  {
    var r := Render(n);
    assert ParseNumber(r) == Some(n as real) by {
      ParseNumberOfDigits(r);
      DigitsValueOfRender(n);
    }
    PgBare(r, n as real);
    XlBare(r, n as real);
  }

  lemma NumeralNineHundred(d: string)
    requires d == "900"
    ensures ParseNumber(d) == Some(900.0)
  {
    assert BeforeFirst(d, '.') == d by { assert '.' !in d; }
    assert d[..2][..1] == d[..1] && d[..1][..0] == [] && d[..|d| - 1] == d[..2];
    assert DigitsValue(d[..1]) == 9;
    assert DigitsValue(d[..2]) == 90;
  }

  lemma NumeralSeventy(d: string)
    requires d == "70.00"
    ensures ParseNumber(d) == Some(70.0)
  {
    assert BeforeFirst(d[2..], '.') == [];
    assert d[1..][1..] == d[2..] && d[1..][0] == '0';
    assert BeforeFirst(d[1..], '.') == [d[1]];
    assert BeforeFirst(d, '.') == d[..2];
    assert d[..2][..1] == d[..1] && d[..1][..0] == [];
    assert DigitsValue(d[..1]) == 7;
    assert DigitsValue(d[..2]) == 70;
    var fp := d[3..];
    assert fp[..1] == d[3..4] && d[3..4][..0] == [];
    assert DigitsValue(fp) == 0;
  }

  /** The docstring's first example: '€900k' is 0.9 in both variants. */
  lemma MillionsThousandsExample(a: string)
    requires a == "€900k"
    ensures MillionsPg(a) == 0.9 && MillionsXl(a) == 0.9
  {
    var d := a[1..4];
    assert a == "€" + d + "k";
    NumeralNineHundred(d);
    MillionsPgOfNumeral(d, 900.0);
    MillionsXlOfNumeral(d, 900.0);
  }

  /**
   * The docstring's second example: '€70.00m' is 70.0 in both variants, while
   * an upper-case 'M' still reads as millions in the database variant but
   * makes the spreadsheet variant fall back to 0.0.
   */
  lemma MillionsMillionsExample(b: string, c: string)
    requires b == "€70.00m" && c == "€70.00M"
    ensures MillionsPg(b) == 70.0 && MillionsXl(b) == 70.0
    ensures MillionsPg(c) == 70.0 && MillionsXl(c) == 0.0
  {
    var e := b[1..6];
    assert b == "€" + e + "m" && c == "€" + e + "M";
    NumeralSeventy(e);
    MillionsPgOfNumeral(e, 70.0);
    MillionsXlOfNumeral(e, 70.0);
  }

  /** Text with no number in it is 0.0 in the database variant. */
  lemma MillionsWordExample(g: string)
    requires g == "garbage"
    ensures MillionsPg(g) == 0.0
  {
    assert forall i | 0 <= i < |g| :: g[i] != '€' && LowerChar(g[i]) != 'm' && LowerChar(g[i]) != 'k';
    MillionsPgOfWord(g);
  }
}
