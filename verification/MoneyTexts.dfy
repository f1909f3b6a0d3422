/** Printed amounts digit by digit, currency by currency, and which texts are refused and why. */
module MoneyTexts {
  import opened Basics
  import opened Decimal
  import opened Text
  import opened Money

  // ---------- printing ----------

  function Digit(d: nat): char
    requires d < 10
  {
    (48 + d) as char
  }

  /** The text of a non-negative amount: hundredths are shown always by four currencies, by the
      rupiah when there are any, and the others have none. */
  function Shown(n: nat, c: Currency): string {
    match c
    case JPY => PrintNat(n)
    case Unlisted(_) => PrintNat(n)
    case IDR => if n % 100 == 0 then PrintNat(n / 100) else Hundredths(n)
    case _ => Hundredths(n)
  }

  function Hundredths(n: nat): string {
    PrintNat(n / 100) + ['.', Digit(n % 100 / 10), Digit(n % 10)]
  }

  lemma TwoDigits(n: nat)
    requires n < 100
    ensures LeftPad(PrintInt(n), 2) == [Digit(n / 10), Digit(n % 10)]
  {
    if n < 10 {
      assert Zeros(1) == Zeros(0) + "0" == "0";
    } else {
      assert PrintNat(n) == PrintNat(n / 10) + [DigitOf(n % 10)];
    }
  }

  lemma SizeOf(n: nat)
    requires n <= MAX_INT64
    ensures Abs64(n) == n && Abs64(0 - n) == n
  {
  }

  lemma WholeAndHundredths(n: nat)
    ensures Quo(n, 100) == n / 100 && Rem(n, 100) == n % 100
  {
  }

  lemma LastDigit(n: nat)
    ensures n % 100 % 10 == n % 10
  {
    var q, r := n / 100, n % 100;
    assert n == 10 * (10 * q + r / 10) + r % 10;
  }

  lemma HundredthsPrint(n: nat)
    ensures PrintInt(Quo(n, 100)) + ("." + LeftPad(PrintInt(Rem(n, 100)), 2)) == Hundredths(n)
    ensures PrintInt(Quo(n, 100)) + "" == PrintNat(n / 100)
  {
    var q, f := n / 100, n % 100;
    WholeAndHundredths(n);
    LastDigit(n);
    TwoDigits(f);
    hide PrintNat, LeftPad, Quo, Rem;
    assert "." + [Digit(f / 10), Digit(f % 10)] == ['.', Digit(f / 10), Digit(f % 10)];
  }

  lemma SizePrints(n: nat, c: Currency)
    requires MetaOf(c).exponent == 2
    ensures PrintInt(Quo(n, 100)) + Fraction(n, MetaOf(c)) == Shown(n, c)
  {
    Hundred(MetaOf(c));
    HundredthsPrint(n);
    WholeAndHundredths(n);
    hide Quo, Rem, Pow10Pos, PrintNat, PrintInt, LeftPad, Hundredths;
  }

  lemma MajorForm(minor: int, c: Currency)
    requires MetaOf(c).exponent == 2
    ensures var size := PrintInt(Quo(Abs64(minor), 100)) + Fraction(Abs64(minor), MetaOf(c));
      MajorText(Amount(minor, c)) == if minor < 0 then "-" + size else size
  {
    Hundred(MetaOf(c));
    hide Quo, Rem, Pow10Pos, Fraction, Abs64, PrintInt, MetaOf;
  }

  lemma WholesPrint(n: nat, c: Currency)
    requires MetaOf(c).exponent == 0
    ensures MajorText(Amount(n, c)) == Shown(n, c)
    ensures n > 0 ==> MajorText(Amount(0 - n, c)) == "-" + Shown(n, c)
  {
    hide PrintNat, Quo, Fraction, Abs64, Hundredths;
  }

  /** Every amount but the least prints its size, with a minus sign before it if it is negative. */
  lemma AmountsPrintTheirSize(n: nat, c: Currency)
    requires n <= MAX_INT64
    ensures MajorText(Amount(n, c)) == Shown(n, c)
    ensures n > 0 ==> MajorText(Amount(0 - n, c)) == "-" + Shown(n, c)
  {
    assert MetaOf(c).exponent == 0 || MetaOf(c).exponent == 2;
    hide *;
    if MetaOf(c).exponent == 2 {
      SizePrints(n, c);
      MajorForm(n, c);
      MajorForm(0 - n, c);
      SizeOf(n);
    } else {
      WholesPrint(n, c);
    }
  }

  /** The least one has no size in 64 bits: both halves of its text carry a sign of their own. */
  lemma TheLeastPrintsThreeSigns(c: Currency)
    requires Valid(c) && c != JPY
    ensures MajorText(Amount(MIN_INT64, c)) == "-" + (("-" + PrintNat(92233720368547758)) + ("." + "-8"))
  {
    assert MetaOf(c).exponent == 2;
    MajorForm(MIN_INT64, c);
    LeastHalves();
    LeastFraction(c);
    PrintedSigns();
    hide *;
  }

  lemma LeastFraction(c: Currency)
    requires MetaOf(c).exponent == 2
    ensures Fraction(MIN_INT64, MetaOf(c)) == "." + "-8"
  {
    Hundred(MetaOf(c));
    LeastHalves();
    PrintedSigns();
    hide PrintInt, Quo, Rem, Pow10Pos;
    assert LeftPad("-8", 2) == "-8";
  }

  lemma LeastHalves()
    ensures Abs64(MIN_INT64) == MIN_INT64
    ensures Quo(MIN_INT64, 100) == -92233720368547758 && Rem(MIN_INT64, 100) == -8
  {
  }

  lemma PrintedSigns()
    ensures PrintInt(-8) == "-8" && PrintInt(-92233720368547758) == "-" + PrintNat(92233720368547758)
  {
    assert PrintNat(8) == "8";
    hide PrintNat;
  }

  // ---------- reading ----------

  function CodeOf(c: Currency): string {
    match c
    case IDR => "IDR"
    case USD => "USD"
    case SGD => "SGD"
    case MYR => "MYR"
    case EUR => "EUR"
    case JPY => "JPY"
    case Unlisted(name) => name
  }

  function SymbolOf(c: Currency): string {
    match c
    case IDR => "Rp"
    case USD => "$"
    case SGD => "S$"
    case MYR => "RM"
    case EUR => "\U{20AC}"
    case JPY => "\U{A5}"
    case Unlisted(_) => ""
  }

  lemma CodesAndSymbols(c: Currency)
    requires Valid(c)
    ensures MetaOf(c).symbol == SymbolOf(c) && NamesIt(CodeOf(c), c) && NamesIt("", c)
  {
    CodesAreUpper(c);
  }

  lemma Undecorated(text: string, gap: string, c: Currency)
    requires MetaOf(c).symbol == SymbolOf(c)
    ensures Decorated("", true, "", gap, text, "", c) == SymbolOf(c) + (gap + text)
    ensures Decorated("", false, CodeOf(c), gap, text, "", c) == CodeOf(c) + (gap + text)
    ensures Decorated("", false, "", "", text, "", c) == text
  {
    hide MetaOf, SymbolOf, CodeOf;
  }

  /** A text after the currency's symbol or its code, and a blank or none, is read as the text. */
  lemma SymbolAndCodeAreRead(text: string, gap: string, c: Currency)
    requires Valid(c) && Plain(text) && (gap == "" || gap == " ")
    ensures ParseMajor(SymbolOf(c) + (gap + text), c) == ParseMajor(text, c) == ParseMajor(CodeOf(c) + (gap + text), c)
  {
    CodesAndSymbols(c);
    assert Spaces("") && Spaces(gap);
    hide *;
    Undecorated(text, gap, c);
    DecorationIsIgnored("", true, "", gap, text, "", c);
    DecorationIsIgnored("", false, CodeOf(c), gap, text, "", c);
    DecorationIsIgnored("", false, "", "", text, "", c);
  }

  lemma CodesAreUpper(c: Currency)
    requires Valid(c)
    ensures Upper(CodeOf(c)) == CodeOf(c)
  {
  }

  /** Why a text is refused, once spaces, symbol and code are off it: nothing is left; it starts with a
      minus; it has a point that could be either mark, with the wrong number of bytes behind it; or
      what stands around the decimal mark is not digits, at least one before it. */
  lemma RefusalsTell(s: string, c: Currency)
    ensures ParseMajor(s, c) == Err(UnknownCurrency) <==> c.Unlisted?
    ensures !c.Unlisted? ==>
      var raw, r := Bare(s, MetaOf(c)), ParseMajor(s, c);
      && (r == Err(Empty) <==> raw == "")
      && (r == Err(Negative) <==> raw != "" && raw[0] == '-')
      && (r == Err(Ambiguous) <==> raw != "" && raw[0] != '-' && HasStrayPoint(raw, c))
      && (r == Err(NotANumber) <==>
            raw != "" && raw[0] != '-' && !HasStrayPoint(raw, c) && !IsNumber(raw, c))
  {
    if !c.Unlisted? {
      BareRefusals(Bare(s, MetaOf(c)), c);
      hide Bare, ReadBare, HasStrayPoint, IsNumber;
    }
  }

  lemma BareRefusals(raw: string, c: Currency)
    requires Valid(c)
    ensures var r := ReadBare(raw, c);
      && (r == Err(Empty) <==> raw == "")
      && (r == Err(Negative) <==> raw != "" && raw[0] == '-')
      && (r == Err(Ambiguous) <==> raw != "" && raw[0] != '-' && HasStrayPoint(raw, c))
      && (r == Err(NotANumber) <==>
            raw != "" && raw[0] != '-' && !HasStrayPoint(raw, c) && !IsNumber(raw, c))
      && r != Err(UnknownCurrency)
  {
    if raw != "" && raw[0] != '-' {
      StrayIff(raw, c);
      if SplitDecimal(raw, MetaOf(c).display).Some? {
        NumeralRefusals(SplitDecimal(raw, MetaOf(c).display).value, c);
        SplitTells(raw, c);
      }
      hide SplitDecimal, ReadNumeral, HasStrayPoint, IsNumber, Grouped, AllDigits, MetaOf;
    }
  }

  lemma StrayIff(raw: string, c: Currency)
    requires Valid(c)
    ensures SplitDecimal(raw, MetaOf(c).display).None? <==> HasStrayPoint(raw, c)
  {
    hide LastMark, ByteLen;
  }

  function Decimals(c: Currency): nat {
    if c in {USD, SGD, MYR, EUR} then 2 else 0
  }

  /** The last mark is a point and not one or two bytes before the end, of a currency that shows
      decimals. */
  predicate HasStrayPoint(raw: string, c: Currency) {
    var i := LastMark(raw);
    Decimals(c) > 0 && i >= 0 && raw[i] == '.' && !(1 <= ByteLen(raw[i + 1..]) <= 2)
  }

  /** The digits stand before the decimal mark, if there is one, with any marks between them, and
      after it. */
  predicate IsNumber(raw: string, c: Currency) {
    var i := LastMark(raw);
    if Decimals(c) > 0 && i >= 0 && 1 <= ByteLen(raw[i + 1..]) <= 2 then
      Grouped(raw[..i]) && AllDigits(raw[i + 1..])
    else Grouped(raw)
  }

  /** Digits and marks, at least one digit. */
  predicate Grouped(whole: string) {
    && (forall k :: 0 <= k < |whole| ==> '0' <= whole[k] <= '9' || whole[k] == '.' || whole[k] == ',')
    && exists k :: 0 <= k < |whole| && '0' <= whole[k] <= '9'
  }

  lemma {:induction false} GroupedMeans(whole: string)
    ensures Grouped(whole) <==> Without(whole, IsMark) != "" && AllDigits(Without(whole, IsMark))
  {
    NumeralsReduceToDigits(whole);
    DigitsRemain(whole);
    if Grouped(whole) {
      assert Numeral(whole);
    }
    if Numeral(whole) {
      assert forall k :: 0 <= k < |whole| ==> IsDigit(whole[k]) || IsMark(whole[k]);
    }
  }

  lemma {:induction false} DigitsRemain(s: string)
    requires true
    ensures Without(s, IsMark) != "" <==> exists k :: 0 <= k < |s| && !IsMark(s[k])
  {
    if s != [] {
      DigitsRemain(s[1..]);
      if exists k :: 0 <= k < |s| && !IsMark(s[k]) {
        var k :| 0 <= k < |s| && !IsMark(s[k]);
        assert k > 0 ==> s[1..][k - 1] == s[k];
      }
    }
  }

  lemma SplitTells(raw: string, c: Currency)
    requires SplitDecimal(raw, MetaOf(c).display).Some? && Valid(c)
    ensures var split := SplitDecimal(raw, MetaOf(c).display).value;
      IsNumber(raw, c) <==> Grouped(split.whole) && AllDigits(split.frac)
  {
    hide Grouped, LastMark, ByteLen;
  }

  lemma NumeralRefusals(split: Split, c: Currency)
    requires Valid(c)
    ensures ReadNumeral(split, c) == Err(NotANumber) <==> !(Grouped(split.whole) && AllDigits(split.frac))
    ensures ReadNumeral(split, c).Err? ==> ReadNumeral(split, c).error in {NotANumber, TooManyDecimals, Overflow}
  {
    GroupedMeans(split.whole);
    DigitsTrimAway(Without(split.whole, IsMark));
    DigitsTrimAway(split.frac);
    hide Grouped, AllDigits, Without, Trim, ByteLen, Atoi, MetaOf, Zeros;
  }

  /** Nothing but space is empty. */
  lemma SpaceIsEmpty(s: string, c: Currency)
    requires Valid(c) && forall x :: x in s ==> IsSpace(x)
    ensures ParseMajor(s, c) == Err(Empty)
  {
    TrimsAwayIff(s, IsSpace);
    assert Trim("", IsSpace) == "" && Upper("") == "" && Without("", IsBlank) == "";
    assert TrimPrefix("", MetaOf(c).symbol) == "" && TrimPrefix("", MetaOf(c).code) == "";
    assert Bare(s, MetaOf(c)) == "" by {
      hide Trim, Upper, Without, TrimPrefix, MetaOf, IsSpace;
    }
  }
}
