/** Money in minor units: printing an amount in major units and reading typed amounts back. */
module Money {
  import opened Basics
  import opened Decimal
  import opened Text

  // ---------- the currency table ----------

  datatype Currency = IDR | USD | SGD | MYR | EUR | JPY | Unlisted(name: string)

  /** One row: digits stored per major unit, digits shown, and how the currency is written. */
  datatype Meta = Meta(exponent: nat, display: nat, symbol: string, code: string)

  function MetaOf(c: Currency): Meta {
    match c
    case IDR => Meta(2, 0, "Rp", "IDR")
    case USD => Meta(2, 2, "$", "USD")
    case SGD => Meta(2, 2, "S$", "SGD")
    case MYR => Meta(2, 2, "RM", "MYR")
    case EUR => Meta(2, 2, "\U{20AC}", "EUR")
    case JPY => Meta(0, 0, "\U{A5}", "JPY")
    case Unlisted(name) => Meta(0, 0, "", name)
  }

  predicate Valid(c: Currency) {
    !c.Unlisted?
  }

  datatype Amount = Amount(minor: int, currency: Currency)

  // ---------- 64-bit arithmetic ----------

  /** Go divides towards zero. */
  function Quo(a: int, b: int): int
    requires b > 0
  {
    if a >= 0 then a / b else -(-a / b)
  }

  function Rem(a: int, b: int): int
    requires b > 0
  {
    a - Quo(a, b) * b
  }

  lemma WrapScaled(n: int)
    ensures Wrap64(Wrap64(n) * 10) == Wrap64(n * 10)
  {
    var k := (n - MIN_INT64) / 0x1_0000_0000_0000_0000;
    assert Wrap64(n) == n - k * 0x1_0000_0000_0000_0000;
    var x := Wrap64(n) * 10 - MIN_INT64;
    assert n * 10 - MIN_INT64 == x + 10 * k * 0x1_0000_0000_0000_0000;
    ModShift(x, 10 * k, 0x1_0000_0000_0000_0000);
  }

  lemma ModShift(x: int, k: int, m: int)
    requires m > 0
    ensures (x + k * m) % m == x % m
  {
    var q, r := x / m, x % m;
    var q', r' := (x + k * m) / m, (x + k * m) % m;
    assert x == q * m + r && x + k * m == q' * m + r';
    var d := q' - q - k;
    assert d * m == r - r';
    assert d >= 1 ==> d * m >= m;
    assert d <= -1 ==> d * m <= -m;
  }

  method PowerOfTen(n: nat) returns (p: int)
    ensures p == Wrap64(Pow10(n))
  {
    p := 1;
    for i := 0 to n
      invariant p == Wrap64(Pow10(i))
    {
      WrapScaled(Pow10(i));
      p := Wrap64(p * 10);
    }
  }

  // ---------- printing ----------

  /** The size of a 64-bit number as Go computes it: the least one has no opposite. */
  function Abs64(n: int): int {
    if n < 0 then Wrap64(-n) else n
  }

  function LeftPad(s: string, width: nat): string {
    if |s| < width then Zeros(width - |s|) + s else s
  }

  function Fraction(abs: int, m: Meta): string {
    var frac := Rem(abs, Pow10Pos(m.exponent));
    if frac != 0 || m.display > 0 then "." + LeftPad(PrintInt(frac), m.exponent) else ""
  }

  function Pow10Pos(n: nat): (p: nat)
    ensures p == Pow10(n) && p > 0
  {
    PowGrows(n);
    Pow10(n)
  }

  function MajorText(a: Amount): string {
    var m := MetaOf(a.currency);
    if m.exponent == 0 then PrintInt(a.minor)
    else
      var abs := Abs64(a.minor);
      var text := PrintInt(Quo(abs, Pow10Pos(m.exponent))) + Fraction(abs, m);
      if a.minor < 0 then "-" + text else text
  }

  lemma Hundred(m: Meta)
    requires m.exponent == 2
    ensures Pow10Pos(m.exponent) == 100 == Wrap64(Pow10(m.exponent))
  {
    assert Pow10(2) == 10 * (10 * Pow10(0));
  }

  method Major(a: Amount) returns (s: string)
    requires IsInt64(a.minor)
    ensures s == MajorText(a)
  {
    hide PrintInt, Zeros, Pow10Pos, Pow10, Quo, Rem, Wrap64, LeftPad;
    var m := MetaOf(a.currency);
    if m.exponent == 0 {
      return PrintInt(a.minor);
    }
    var neg, abs := a.minor < 0, a.minor;
    if neg {
      abs := Wrap64(-abs);
    }
    var pow := PowerOfTen(m.exponent);
    Hundred(m);
    var whole, frac := Quo(abs, pow), Rem(abs, pow);
    s := PrintInt(whole);
    if frac != 0 || m.display > 0 {
      s := s + ("." + LeftPad(PrintInt(frac), m.exponent));
    }
    assert PrintInt(whole) + "" == PrintInt(whole);
    if neg {
      s := "-" + s;
    }
  }

  // ---------- reading ----------

  datatype Refusal = UnknownCurrency | Empty | Negative | Ambiguous | NotANumber | TooManyDecimals | Overflow

  predicate IsMark(c: char) {
    c == '.' || c == ','
  }

  /** Upper case as far as parsing can tell: the letters of the codes, and the two other
      characters whose upper case is one of those letters. */
  function UpperChar(c: char): char {
    if 'a' <= c <= 'z' then c - 'a' + 'A'
    else if c == '\U{131}' then 'I'
    else if c == '\U{17F}' then 'S'
    else c
  }

  function Upper(s: string): string {
    seq(|s|, i requires 0 <= i < |s| => UpperChar(s[i]))
  }

  /** Length in UTF-8, which is what len counts. */
  function ByteLen(s: string): nat {
    if s == [] then 0
    else (if s[0] < '\U{80}' then 1 else if s[0] < '\U{800}' then 2 else if s[0] < '\U{10000}' then 3 else 4)
         + ByteLen(s[1..])
  }

  /** Where the last mark stands, -1 if there is none. */
  function LastMark(s: string): (i: int)
    ensures -1 <= i < |s|
    ensures i >= 0 ==> IsMark(s[i])
    ensures forall j :: i < j < |s| ==> !IsMark(s[j])
  {
    if s == [] then -1
    else if IsMark(s[|s| - 1]) then |s| - 1
    else LastMark(s[..|s| - 1])
  }

  datatype Split = Split(whole: string, frac: string)

  function SplitDecimal(raw: string, display: nat): Option<Split> {
    if display == 0 then Some(Split(raw, ""))
    else
      var i := LastMark(raw);
      if i < 0 then Some(Split(raw, ""))
      else
        var tail := raw[i + 1..];
        if 1 <= ByteLen(tail) <= display then Some(Split(raw[..i], tail))
        else if raw[i] == ',' then Some(Split(raw, ""))
        else None
  }

  predicate IsBlank(c: char) {
    c == ' '
  }

  /** What is left once the spaces, the symbol and the code are off. */
  function Bare(s: string, m: Meta): string {
    var raw := TrimPrefix(TrimSpace(s), m.symbol);
    var unnamed := TrimPrefix(Upper(raw), m.code);
    Without(TrimSpace(unnamed), IsBlank)
  }

  function ReadNumeral(split: Split, c: Currency): Result<Amount, Refusal> {
    var exp := MetaOf(c).exponent;
    var digits := Without(split.whole, IsMark);
    if digits == "" || Trim(digits, IsDigit) != "" || Trim(split.frac, IsDigit) != "" then Err(NotANumber)
    else if ByteLen(split.frac) > exp then Err(TooManyDecimals)
    else
      var padding := if |split.frac| < exp then Zeros(exp - |split.frac|) else "";
      match Atoi(digits + (split.frac + padding))
      case None => Err(Overflow)
      case Some(n) => Ok(Amount(n, c))
  }

  function ReadBare(raw: string, c: Currency): Result<Amount, Refusal> {
    if raw == "" then Err(Empty)
    else if raw[0] == '-' then Err(Negative)
    else
      match SplitDecimal(raw, MetaOf(c).display)
      case None => Err(Ambiguous)
      case Some(split) => ReadNumeral(split, c)
  }

  function ParseMajor(s: string, c: Currency): Result<Amount, Refusal> {
    if !Valid(c) then Err(UnknownCurrency) else ReadBare(Bare(s, MetaOf(c)), c)
  }

  // ---------- small facts about digits and marks ----------

  lemma DigitsTrimAway(s: string)
    ensures Trim(s, IsDigit) == "" <==> AllDigits(s)
  {
    TrimsAwayIff(s, IsDigit);
  }

  lemma {:induction false} AsciiLength(s: string)
    requires AllDigits(s)
    ensures ByteLen(s) == |s|
  {
    if s != [] {
      assert IsDigit(s[0]);
      AsciiLength(s[1..]);
    }
  }

  lemma {:induction false} BytesAtLeastChars(s: string)
    ensures ByteLen(s) >= |s|
  {
    if s != [] {
      BytesAtLeastChars(s[1..]);
    }
  }

  /** Only digits and marks. */
  predicate Numeral(s: string) {
    forall i :: 0 <= i < |s| ==> IsDigit(s[i]) || IsMark(s[i])
  }

  lemma {:induction false} NumeralsReduceToDigits(s: string)
    ensures Numeral(s) <==> AllDigits(Without(s, IsMark))
  {
    if s != [] {
      var rest := Without(s[1..], IsMark);
      NumeralsReduceToDigits(s[1..]);
      assert Numeral(s) <==> (IsDigit(s[0]) || IsMark(s[0])) && Numeral(s[1..]) by {
        assert forall i :: 0 < i < |s| ==> s[i] == s[1..][i - 1];
      }
      assert AllDigits([s[0]] + rest) <==> IsDigit(s[0]) && AllDigits(rest) by {
        assert AllDigits([s[0]] + rest) ==> AllDigits(rest) by {
          assert forall i :: 0 <= i < |rest| ==> rest[i] == ([s[0]] + rest)[i + 1];
        }
        assert ([s[0]] + rest)[0] == s[0];
      }
    }
  }

  lemma AtoiOfDigits(s: string)
    requires s != "" && AllDigits(s)
    ensures Atoi(s) == if ValueOf(s) <= MAX_INT64 then Some(ValueOf(s)) else None
  {
    assert IsDigit(s[0]);
  }

  lemma DigitsJoin(a: string, b: string)
    ensures AllDigits(a + b) <==> AllDigits(a) && AllDigits(b)
  {
    if AllDigits(a + b) {
      assert forall i :: 0 <= i < |a| ==> a[i] == (a + b)[i];
      assert forall i :: 0 <= i < |b| ==> b[i] == (a + b)[|a| + i];
    }
  }

  // ---------- what a numeral is worth ----------

  /** The amount, or the overflow. */
  function Counted(n: int, c: Currency): Result<Amount, Refusal> {
    if n <= MAX_INT64 then Ok(Amount(n, c)) else Err(Overflow)
  }

  /** Minor units of a whole part and so many decimals. */
  function Positional(whole: nat, frac: nat, decimals: nat, exponent: nat): nat
    requires decimals <= exponent
  {
    whole * Pow10(exponent) + frac * Pow10(exponent - decimals)
  }

  lemma NumeralIsPositional(split: Split, c: Currency)
    requires Numeral(split.whole) && Without(split.whole, IsMark) != "" && AllDigits(split.frac)
    requires |split.frac| <= MetaOf(c).exponent
    ensures ReadNumeral(split, c) ==
      Counted(Positional(ValueOf(Without(split.whole, IsMark)), ValueOf(split.frac), |split.frac|,
                         MetaOf(c).exponent), c)
  {
    hide ValueOf, Pow10, Zeros, Without, Atoi, Trim, ByteLen;
    var exp, digits, frac := MetaOf(c).exponent, Without(split.whole, IsMark), split.frac;
    var zeros := Zeros(exp - |frac|);
    NumeralsReduceToDigits(split.whole);
    DigitsTrimAway(digits);
    DigitsTrimAway(frac);
    AsciiLength(frac);
    ZerosAreZero(exp - |frac|);
    DigitsJoin(frac, zeros);
    DigitsJoin(digits, frac + zeros);
    assert |frac| == exp ==> zeros == "";
    AtoiOfDigits(digits + (frac + zeros));
    ValueOfJoin(frac, zeros);
    ValueOfJoin(digits, frac + zeros);
  }

  /** A numeral is not an empty text, and reading it starts with nothing to cut. */
  lemma BareNumeral(s: string, c: Currency)
    requires Valid(c) && Numeral(s) && s != ""
    ensures Bare(s, MetaOf(c)) == s
  {
    assert "" + s + "" == s;
    SpacesAreIgnored("", s, "", c);
  }

  /** Whole part, one decimal mark and up to the shown number of decimals: the positional value
      in minor units, whatever grouping marks the whole part holds. */
  lemma DecimalsArePositional(whole: string, mark: char, frac: string, c: Currency)
    requires Valid(c) && Numeral(whole) && Without(whole, IsMark) != ""
    requires IsMark(mark) && AllDigits(frac) && 1 <= |frac| <= MetaOf(c).display
    ensures ParseMajor(whole + [mark] + frac, c) ==
      Counted(Positional(ValueOf(Without(whole, IsMark)), ValueOf(frac), |frac|, MetaOf(c).exponent), c)
  {
    hide ValueOf, Positional, Without, LastMark, Bare, ReadNumeral;
    var s := whole + [mark] + frac;
    BareNumeral(s, c);
    assert s[..|whole|] == whole && s[|whole|] == mark && s[|whole| + 1..] == frac;
    LastMarkIs(s, |whole|);
    AsciiLength(frac);
    NumeralIsPositional(Split(whole, frac), c);
  }

  /** A mark with only digits after it is the last one. */
  lemma LastMarkIs(s: string, k: nat)
    requires k < |s| && IsMark(s[k]) && AllDigits(s[k + 1..])
    ensures LastMark(s) == k
  {
    hide LastMark;
    var i, tail := LastMark(s), s[k + 1..];
    assert i > k ==> IsMark(s[i]) && s[i] == tail[i - k - 1] && IsDigit(tail[i - k - 1]);
  }

  /** No decimal part is read when none can be shown, when there is no mark, or when the last
      mark is a comma that the wrong number of digits follow. */
  predicate AllGrouping(s: string, display: nat) {
    display == 0 || LastMark(s) < 0 ||
    (s[LastMark(s)] == ',' && !(1 <= |s| - 1 - LastMark(s) <= display))
  }

  lemma TailDigits(s: string)
    requires Numeral(s)
    ensures AllDigits(s[LastMark(s) + 1..])
  {
    var i := LastMark(s);
    var tail := s[i + 1..];
    forall j | 0 <= j < |tail| ensures IsDigit(tail[j]) {
      assert tail[j] == s[i + 1 + j];
    }
  }

  /** The last mark is a point that the wrong number of digits follow. */
  predicate StrayPoint(s: string, display: nat) {
    display > 0 && LastMark(s) >= 0 && s[LastMark(s)] == '.' && !(1 <= |s| - 1 - LastMark(s) <= display)
  }

  lemma SplitsNowhere(s: string, display: nat)
    requires Numeral(s)
    ensures AllGrouping(s, display) ==> SplitDecimal(s, display) == Some(Split(s, ""))
    ensures StrayPoint(s, display) ==> SplitDecimal(s, display) == None
  {
    hide LastMark, ByteLen, Numeral, AllDigits;
    TailDigits(s);
    AsciiLength(s[LastMark(s) + 1..]);
  }

  lemma NumeralStarts(s: string)
    requires Numeral(s) && s != ""
    ensures s[0] != '-'
  {
    assert IsDigit(s[0]) || IsMark(s[0]);
  }

  lemma WholeIsPositional(s: string, c: Currency)
    requires Numeral(s) && Without(s, IsMark) != ""
    ensures ReadNumeral(Split(s, ""), c) ==
      Counted(ValueOf(Without(s, IsMark)) * Pow10(MetaOf(c).exponent), c)
  {
    assert ValueOf("") == 0;
    hide ValueOf, Pow10, Without, ReadNumeral, Numeral, MetaOf, Counted;
    NumeralIsPositional(Split(s, ""), c);
  }

  lemma WholeNumbersArePositional(s: string, c: Currency)
    requires Valid(c) && Numeral(s) && Without(s, IsMark) != ""
    requires AllGrouping(s, MetaOf(c).display)
    ensures ParseMajor(s, c) == Counted(ValueOf(Without(s, IsMark)) * Pow10(MetaOf(c).exponent), c)
  {
    assert s != "";
    hide ValueOf, Pow10, Without, AllGrouping, Bare, ReadNumeral, SplitDecimal, Numeral, MetaOf, Counted;
    NumeralStarts(s);
    BareNumeral(s, c);
    SplitsNowhere(s, MetaOf(c).display);
    WholeIsPositional(s, c);
  }

  /** The same text ending in a point instead is refused. */
  lemma StrayPointIsAmbiguous(s: string, c: Currency)
    requires Valid(c) && Numeral(s) && StrayPoint(s, MetaOf(c).display)
    ensures ParseMajor(s, c) == Err(Ambiguous)
  {
    assert s != "";
    hide StrayPoint, Bare, ReadNumeral, SplitDecimal, Numeral, MetaOf;
    NumeralStarts(s);
    BareNumeral(s, c);
    SplitsNowhere(s, MetaOf(c).display);
  }

  // ---------- symbol, code and spaces ----------

  predicate Spaces(s: string) {
    forall c :: c in s ==> IsSpace(c)
  }

  /** Characters the parser gives no meaning to before it looks for a number. */
  predicate PlainChar(c: char) {
    IsDigit(c) || IsMark(c) || c == '-'
  }

  predicate Plain(s: string) {
    s != "" && forall c :: c in s ==> PlainChar(c)
  }

  predicate NamesIt(code: string, c: Currency) {
    code == "" || Upper(code) == MetaOf(c).code
  }

  function Decorated(left: string, symbol: bool, code: string, gap: string, text: string, right: string,
                     c: Currency): string
  {
    left + ((if symbol then MetaOf(c).symbol else "") + (code + (gap + text))) + right
  }

  lemma UpperJoin(a: string, b: string)
    ensures Upper(a + b) == Upper(a) + Upper(b)
  {
  }

  lemma UpperKeeps(s: string)
    requires forall c :: c in s ==> UpperChar(c) == c
    ensures Upper(s) == s
  {
  }

  lemma PlainCharIsUntouched(c: char)
    requires PlainChar(c)
    ensures !IsSpace(c) && UpperChar(c) == c && !IsBlank(c)
  {
  }

  lemma SpaceIsUntouched(c: char)
    requires IsSpace(c)
    ensures UpperChar(c) == c && !('A' <= c <= 'Z')
  {
  }

  lemma PlainIsUntouched(s: string)
    requires Plain(s)
    ensures !IsSpace(s[0]) && !IsSpace(s[|s| - 1]) && Upper(s) == s && Without(s, IsBlank) == s
  {
    hide IsSpace, UpperChar, Upper, Without, IsBlank, PlainChar;
    assert s[0] in s && s[|s| - 1] in s;
    forall c | c in s ensures !IsSpace(c) && UpperChar(c) == c && !IsBlank(c) {
      PlainCharIsUntouched(c);
    }
    UpperKeeps(s);
    WithoutKeeps(s, IsBlank);
  }

  lemma SymbolOff(rest: string, c: Currency)
    requires Valid(c)
    ensures TrimPrefix(MetaOf(c).symbol + rest, MetaOf(c).symbol) == rest
    ensures MetaOf(c).symbol != "" && !IsSpace(MetaOf(c).symbol[0])
  {
    var m := MetaOf(c);
    assert (m.symbol + rest)[|m.symbol|..] == rest;
  }

  lemma NoSymbol(code: string, rest: string, c: Currency)
    requires Valid(c) && NamesIt(code, c)
    requires code == "" ==> rest != "" && PlainChar(rest[0])
    ensures code + rest != "" && !IsSpace((code + rest)[0])
    ensures TrimPrefix(code + rest, MetaOf(c).symbol) == code + rest
  {
    var m, s := MetaOf(c), code + rest;
    if code == "" {
      assert s[0] == rest[0];
    } else {
      assert |code| == |Upper(code)| == 3;
      assert UpperChar(code[0]) == m.code[0] && UpperChar(code[1]) == m.code[1];
      assert s[0] == code[0] && s[1] == code[1];
    }
  }

  lemma TrimCore(left: string, head: string, text: string, right: string)
    requires Spaces(left) && Spaces(right) && Plain(text)
    requires !IsSpace((head + text)[0])
    ensures TrimSpace(left + (head + text) + right) == head + text
  {
    hide IsSpace, PlainChar, Trim;
    PlainIsUntouched(text);
    var core := head + text;
    assert core[|core| - 1] == text[|text| - 1];
    TrimUnwraps(left, core, right, IsSpace);
  }

  /** What follows the code has no letter to raise and does not start one. */
  lemma RestIsUntouched(gap: string, text: string)
    requires Spaces(gap) && Plain(text)
    ensures gap + text != "" && Upper(gap + text) == gap + text && !('A' <= (gap + text)[0] <= 'Z')
  {
    hide IsSpace, UpperChar, Upper;
    var rest := gap + text;
    assert text[0] in text;
    assert gap != "" ==> gap[0] in gap;
    forall x | x in rest ensures UpperChar(x) == x {
      if x in gap {
        SpaceIsUntouched(x);
      } else {
        PlainCharIsUntouched(x);
      }
    }
    if gap != "" {
      SpaceIsUntouched(gap[0]);
    }
    UpperKeeps(rest);
  }

  lemma CodeOff(code: string, rest: string, c: Currency)
    requires Valid(c) && NamesIt(code, c)
    requires rest != "" && Upper(rest) == rest && !('A' <= rest[0] <= 'Z')
    ensures TrimPrefix(Upper(code + rest), MetaOf(c).code) == rest
  {
    var m := MetaOf(c);
    UpperJoin(code, rest);
    hide Upper;
    if code == "" {
      assert code + rest == rest;
      assert m.code[0] != rest[0];
    } else {
      assert Upper(code + rest) == m.code + rest;
      assert (m.code + rest)[|m.code|..] == rest;
    }
  }

  lemma SymbolIsIgnored(left: string, code: string, gap: string, text: string, right: string, c: Currency)
    requires Valid(c) && NamesIt(code, c) && Plain(text)
    requires Spaces(left) && Spaces(gap) && Spaces(right)
    ensures Bare(left + (MetaOf(c).symbol + (code + (gap + text))) + right, MetaOf(c)) == text
  {
    hide IsSpace, Upper, Trim, Without, NamesIt, PlainChar, MetaOf;
    var head := MetaOf(c).symbol + code + gap;
    assert MetaOf(c).symbol + (code + (gap + text)) == head + text;
    SymbolOff(code + (gap + text), c);
    assert (head + text)[0] == MetaOf(c).symbol[0];
    TrimCore(left, head, text, right);
    NameOff(code, gap, text, c);
  }

  lemma CodeIsIgnored(left: string, code: string, gap: string, text: string, right: string, c: Currency)
    requires Valid(c) && NamesIt(code, c) && code != "" && Plain(text)
    requires Spaces(left) && Spaces(gap) && Spaces(right)
    ensures Bare(left + (code + (gap + text)) + right, MetaOf(c)) == text
  {
    hide IsSpace, Upper, Trim, TrimSpace, TrimPrefix, Without, NamesIt, Plain, PlainChar, Spaces, MetaOf;
    assert code + (gap + text) == (code + gap) + text;
    NoSymbol(code, gap + text, c);
    TrimCore(left, code + gap, text, right);
    NameOff(code, gap, text, c);
  }

  /** Once the symbol is off. */
  lemma NameOff(code: string, gap: string, text: string, c: Currency)
    requires Valid(c) && NamesIt(code, c) && Plain(text) && Spaces(gap)
    ensures Without(TrimSpace(TrimPrefix(Upper(code + (gap + text)), MetaOf(c).code)), IsBlank) == text
  {
    hide IsSpace, Upper, Trim, Without, NamesIt, PlainChar, MetaOf;
    PlainIsUntouched(text);
    TrimUnwraps(gap, text, "", IsSpace);
    assert gap + text + "" == gap + text;
    RestIsUntouched(gap, text);
    CodeOff(code, gap + text, c);
  }

  lemma SpacesAreIgnored(left: string, text: string, right: string, c: Currency)
    requires Valid(c) && Plain(text) && Spaces(left) && Spaces(right)
    ensures Bare(left + text + right, MetaOf(c)) == text
  {
    assert PlainChar(text[0]) by {
      assert text[0] in text;
    }
    assert NamesIt("", c);
    hide IsSpace, Upper, Trim, Without, NamesIt, PlainChar, MetaOf;
    PlainIsUntouched(text);
    TrimUnwraps(left, text, right, IsSpace);
    assert "" + text == text;
    NoSymbol("", text, c);
    NameOff("", "", text, c);
    assert "" + ("" + text) == text;
  }

  /** Spaces around it, the currency's symbol before it and its code in any case change nothing
      about how a plain text is read. */
  lemma DecorationIsIgnored(left: string, symbol: bool, code: string, gap: string, text: string, right: string,
                            c: Currency)
    requires Valid(c) && NamesIt(code, c) && Plain(text)
    requires Spaces(left) && Spaces(gap) && Spaces(right)
    ensures ParseMajor(Decorated(left, symbol, code, gap, text, right, c), c) == ReadBare(text, c)
  {
    hide IsSpace, NamesIt, Plain, MetaOf, Bare, ReadBare;
    if symbol {
      SymbolIsIgnored(left, code, gap, text, right, c);
    } else if code != "" {
      CodeIsIgnored(left, code, gap, text, right, c);
      assert "" + (code + (gap + text)) == code + (gap + text);
    } else {
      assert left + ("" + ("" + (gap + text))) + right == (left + gap) + text + right;
      SpacesAreIgnored(left + gap, text, right, c);
    }
  }

  // ---------- printing and reading agree ----------

  /** Minor units below one shown decimal: 100 for the rupiah, 1 for the others. */
  function Unshown(c: Currency): (n: nat)
    requires Valid(c)
    ensures n == Pow10(MetaOf(c).exponent - MetaOf(c).display) && n > 0
  {
    Pow10Pos(MetaOf(c).exponent - MetaOf(c).display)
  }

  lemma PowersUsed()
    ensures Pow10(0) == 1 && Pow10(2) == 100
  {
    assert Pow10(1) == 10 * Pow10(0);
  }

  /** Padding on the left leaves the value. */
  lemma PaddingKeepsTheValue(t: string, width: nat)
    requires AllDigits(t)
    ensures var padded := LeftPad(t, width);
      AllDigits(padded) && ValueOf(padded) == ValueOf(t) && |padded| == if |t| < width then width else |t|
  {
    hide ValueOf, Pow10, Zeros;
    if |t| < width {
      ZerosAreZero(width - |t|);
      DigitsJoin(Zeros(width - |t|), t);
      ValueOfJoin(Zeros(width - |t|), t);
      assert 0 * Pow10(|t|) == 0;
    }
  }

  lemma PaddedFraction(n: nat)
    requires n < 100
    ensures var t := LeftPad(PrintInt(n), 2); AllDigits(t) && |t| == 2 && ValueOf(t) == n
  {
    PowersUsed();
    hide PrintNat, Pow10, ValueOf, LeftPad;
    PrintedValue(n);
    PrintedLength(n, 2);
    PaddingKeepsTheValue(PrintNat(n), 2);
  }

  lemma DigitsHaveNoMark(s: string)
    requires AllDigits(s)
    ensures Numeral(s) && Without(s, IsMark) == s
  {
    WithoutKeeps(s, IsMark);
  }

  /** A printed whole part, mark and two decimals: the digits alone spell the minor units. */
  lemma JoinedDigits(whole: string, frac: string)
    requires AllDigits(whole) && whole != "" && AllDigits(frac) && |frac| == 2
    ensures Numeral(whole + ("." + frac)) && Without(whole + ("." + frac), IsMark) == whole + frac
    ensures ValueOf(whole + frac) == ValueOf(whole) * 100 + ValueOf(frac)
  {
    PointDropped(whole, frac);
    NumeralsReduceToDigits(whole + ("." + frac));
    DigitsJoin(whole, frac);
    PowersUsed();
    hide ValueOf, Pow10, Without, AllDigits, Numeral;
    ValueOfJoin(whole, frac);
  }

  lemma PointDropped(whole: string, frac: string)
    requires AllDigits(whole) && AllDigits(frac)
    ensures Without(whole + ("." + frac), IsMark) == whole + frac
  {
    DigitsHaveNoMark(whole);
    DigitsHaveNoMark(frac);
    assert ("." + frac)[1..] == frac;
    assert Without("." + frac, IsMark) == frac;
    hide Without, AllDigits, Numeral;
    WithoutSplits(whole, "." + frac, IsMark);
  }

  /** Whole numbers print as digits alone. */
  lemma PrintsWhole(minor: nat, c: Currency)
    requires Valid(c)
    requires MetaOf(c).display == 0 && minor % Pow10Pos(MetaOf(c).exponent) == 0
    ensures var t := MajorText(Amount(minor, c));
      AllDigits(t) && t != "" && ValueOf(t) * Pow10(MetaOf(c).exponent) == minor
  {
    PowersUsed();
    var m := MetaOf(c);
    hide PrintNat, Pow10, ValueOf, MetaOf, LeftPad, Zeros;
    if m.exponent == 0 {
      PrintedValue(minor);
    } else {
      var whole := minor / Pow10Pos(m.exponent);
      PrintedValue(whole);
      assert Fraction(minor, m) == "";
      assert PrintNat(whole) + "" == PrintNat(whole);
      assert whole * Pow10(m.exponent) == minor;
    }
  }

  /** The rest prints with a point and two decimals. */
  lemma PrintsDecimals(minor: nat, c: Currency) returns (whole: string, frac: string)
    requires Valid(c) && MetaOf(c).exponent == 2
    requires MetaOf(c).display == 2 || minor % 100 != 0
    ensures MajorText(Amount(minor, c)) == whole + ("." + frac)
    ensures whole != "" && AllDigits(whole) && AllDigits(frac) && |frac| == 2
    ensures ValueOf(whole) == minor / 100 && ValueOf(frac) == minor % 100
  {
    PowersUsed();
    PrintedValue(minor / 100);
    PaddedFraction(minor % 100);
    whole, frac := PrintNat(minor / 100), LeftPad(PrintInt(minor % 100), 2);
  }

  lemma WholeReadsBack(minor: nat, c: Currency)
    requires Valid(c) && minor <= MAX_INT64
    requires MetaOf(c).display == 0 && minor % Pow10Pos(MetaOf(c).exponent) == 0
    ensures ParseMajor(MajorText(Amount(minor, c)), c) == Ok(Amount(minor, c))
    ensures Plain(MajorText(Amount(minor, c)))
  {
    var t := MajorText(Amount(minor, c));
    PrintsWhole(minor, c);
    hide MajorText, ParseMajor, Pow10, ValueOf;
    DigitsHaveNoMark(t);
    WholeNumbersArePositional(t, c);
  }

  lemma PointedIsPlain(whole: string, frac: string)
    requires AllDigits(whole) && AllDigits(frac)
    ensures Plain(whole + ("." + frac))
  {
  }

  lemma TwoDecimals(n: nat)
    ensures Positional(n / 100, n % 100, 2, 2) == n
  {
    PowersUsed();
  }

  lemma DecimalsReadBack(minor: nat, c: Currency)
    requires Valid(c) && minor <= MAX_INT64 && MetaOf(c).display == 2
    ensures ParseMajor(MajorText(Amount(minor, c)), c) == Ok(Amount(minor, c))
    ensures Plain(MajorText(Amount(minor, c)))
  {
    assert MetaOf(c).exponent == 2;
    var whole, frac := PrintsDecimals(minor, c);
    TwoDecimals(minor);
    hide MajorText, ParseMajor, Positional, ValueOf, MetaOf, Without, LeftPad, AllDigits, Numeral, Plain;
    DigitsHaveNoMark(whole);
    assert whole + ("." + frac) == whole + ['.'] + frac;
    DecimalsArePositional(whole, '.', frac, c);
    PointedIsPlain(whole, frac);
  }

  lemma CentsReadBackScaled(minor: nat, c: Currency)
    requires Valid(c) && minor <= MAX_INT64
    requires MetaOf(c).exponent == 2 && MetaOf(c).display == 0 && minor % 100 != 0
    ensures ParseMajor(MajorText(Amount(minor, c)), c) == Counted(minor * 100, c)
    ensures Plain(MajorText(Amount(minor, c)))
  {
    var whole, frac := PrintsDecimals(minor, c);
    PowersUsed();
    hide MajorText, ParseMajor, Pow10, ValueOf, MetaOf, Without, LastMark, AllDigits, Numeral, Plain;
    JoinedDigits(whole, frac);
    assert minor / 100 * 100 + minor % 100 == minor;
    PointedIsPlain(whole, frac);
    WholeNumbersArePositional(whole + ("." + frac), c);
  }

  lemma PrintedIntIsPlain(n: int)
    ensures Plain(PrintInt(n)) && (n < 0 ==> PrintInt(n)[0] == '-')
  {
    if n < 0 {
      PrintedValue(-n);
    } else {
      PrintedValue(n);
    }
  }

  lemma FractionIsPlain(abs: int, m: Meta)
    ensures Fraction(abs, m) == "" || Plain(Fraction(abs, m))
  {
    var frac := Rem(abs, Pow10Pos(m.exponent));
    var t := PrintInt(frac);
    PrintedIntIsPlain(frac);
    if |t| < m.exponent {
      ZerosAreZero(m.exponent - |t|);
    }
  }

  lemma NegativesAreRefused(a: Amount)
    requires Valid(a.currency) && a.minor < 0
    ensures Plain(MajorText(a)) && ParseMajor(MajorText(a), a.currency) == Err(Negative)
  {
    var m, t := MetaOf(a.currency), MajorText(a);
    assert Plain(t) && t[0] == '-' by {
      PrintedIntIsPlain(a.minor);
      PrintedIntIsPlain(Quo(Abs64(a.minor), Pow10Pos(m.exponent)));
      FractionIsPlain(Abs64(a.minor), m);
    }
    hide MajorText, Bare, Plain;
    assert "" + t + "" == t;
    SpacesAreIgnored("", t, "", a.currency);
  }

  /** What reading a printed amount gives, for every 64-bit amount. */
  function ReadBack(a: Amount): Result<Amount, Refusal> {
    if !Valid(a.currency) then Err(UnknownCurrency)
    else if a.minor < 0 then Err(Negative)
    else if a.minor % Unshown(a.currency) == 0 then Ok(a)
    else Counted(a.minor * Unshown(a.currency), a.currency)
  }

  lemma PrintedReadsBack(a: Amount)
    requires IsInt64(a.minor)
    ensures ParseMajor(MajorText(a), a.currency) == ReadBack(a)
    ensures Valid(a.currency) ==> Plain(MajorText(a))
  {
    hide MajorText, Bare, ReadBare, Plain, Counted;
    PowersUsed();
    var c := a.currency;
    if !Valid(c) {
    } else if a.minor < 0 {
      NegativesAreRefused(a);
    } else if MetaOf(c).display == 2 {
      DecimalsReadBack(a.minor, c);
    } else if a.minor % Unshown(c) == 0 {
      WholeReadsBack(a.minor, c);
    } else {
      CentsReadBackScaled(a.minor, c);
    }
  }

  /** Parsing undoes printing exactly for the supported currencies' non-negative amounts that
      the shown decimals can express, with or without the symbol, the code and spaces. */
  lemma ParseUndoesMajorIff(a: Amount, left: string, symbol: bool, code: string, gap: string, right: string)
    requires IsInt64(a.minor)
    requires NamesIt(code, a.currency) && Spaces(left) && Spaces(gap) && Spaces(right)
    ensures ParseMajor(Decorated(left, symbol, code, gap, MajorText(a), right, a.currency), a.currency) == Ok(a) <==>
      Valid(a.currency) && a.minor >= 0 && a.minor % Unshown(a.currency) == 0
  {
    hide MajorText, Plain, Decorated, NamesIt, Bare, ReadBare, ReadBack, Spaces;
    PrintedReadsBack(a);
    ReadsBackIff(a);
    if Valid(a.currency) {
      DecoratedReadsTheSame(left, symbol, code, gap, MajorText(a), right, a.currency);
    }
  }

  lemma ReadsBackIff(a: Amount)
    requires IsInt64(a.minor)
    ensures ReadBack(a) == Ok(a) <==> Valid(a.currency) && a.minor >= 0 && a.minor % Unshown(a.currency) == 0
  {
    PowersUsed();
  }

  lemma DecoratedReadsTheSame(left: string, symbol: bool, code: string, gap: string, text: string, right: string,
                              c: Currency)
    requires Valid(c) && NamesIt(code, c) && Plain(text)
    requires Spaces(left) && Spaces(gap) && Spaces(right)
    ensures ParseMajor(Decorated(left, symbol, code, gap, text, right, c), c) == ParseMajor(text, c)
  {
    hide Bare, ReadBare, Plain, Decorated, NamesIt;
    assert ParseMajor(text, c) == ReadBare(text, c) by {
      SpacesAreIgnored("", text, "", c);
      assert "" + text + "" == text;
    }
    DecorationIsIgnored(left, symbol, code, gap, text, right, c);
  }

  // ---------- every accepted text ----------

  lemma SplitIsShort(raw: string, display: nat)
    ensures var r := SplitDecimal(raw, display); r.Some? ==> ByteLen(r.value.frac) <= display
  {
  }

  /** The table never stores fewer decimals than it shows, so the length check never fires. */
  lemma DecimalsAlwaysFit(s: string, c: Currency)
    ensures ParseMajor(s, c) != Err(TooManyDecimals)
  {
    hide Bare, ReadNumeral, ByteLen, LastMark;
    var r := SplitDecimal(Bare(s, MetaOf(c)), MetaOf(c).display);
    SplitIsShort(Bare(s, MetaOf(c)), MetaOf(c).display);
    if r.Some? && ByteLen(r.value.frac) <= MetaOf(c).exponent {
      ShortFractionFits(r.value, c);
    }
  }

  lemma ShortFractionFits(split: Split, c: Currency)
    requires ByteLen(split.frac) <= MetaOf(c).exponent
    ensures ReadNumeral(split, c) != Err(TooManyDecimals)
  {
    hide ByteLen, Without, Trim, Atoi, MetaOf;
  }

  lemma AcceptedNumeral(split: Split, c: Currency)
    requires Valid(c) && ByteLen(split.frac) <= MetaOf(c).display && ReadNumeral(split, c).Ok?
    ensures var a := ReadNumeral(split, c).value;
      a.currency == c && 0 <= a.minor <= MAX_INT64 && a.minor % Unshown(c) == 0
    ensures Numeral(split.whole) && AllDigits(split.frac) && |split.frac| <= MetaOf(c).display
    ensures ReadNumeral(split, c).value.minor ==
      Positional(ValueOf(Without(split.whole, IsMark)), ValueOf(split.frac), |split.frac|, MetaOf(c).exponent)
  {
    assert ValueOf("") == 0;
    DigitsTrimAway(Without(split.whole, IsMark));
    DigitsTrimAway(split.frac);
    NumeralsReduceToDigits(split.whole);
    BytesAtLeastChars(split.frac);
    hide ReadNumeral, ValueOf, Positional, Without, Trim, ByteLen, Numeral, AllDigits;
    NumeralIsPositional(split, c);
    PositionalIsShown(ValueOf(Without(split.whole, IsMark)), ValueOf(split.frac), |split.frac|, c);
  }

  lemma PositionalIsShown(whole: nat, frac: nat, decimals: nat, c: Currency)
    requires Valid(c) && decimals <= MetaOf(c).display && (decimals == 0 ==> frac == 0)
    ensures Positional(whole, frac, decimals, MetaOf(c).exponent) % Unshown(c) == 0
  {
    PowersUsed();
    hide Pow10;
    if MetaOf(c).display < MetaOf(c).exponent {
      assert Unshown(c) == 100;
      assert Positional(whole, frac, decimals, MetaOf(c).exponent) == 100 * whole;
    } else {
      assert Unshown(c) == 1;
    }
  }

  /** The text is the whole part alone, or the whole part, a mark and the decimals. */
  predicate PartsOf(raw: string, split: Split) {
    || (raw == split.whole && split.frac == "")
    || (|raw| > |split.whole| && IsMark(raw[|split.whole|]) && raw == split.whole + [raw[|split.whole|]] + split.frac)
  }

  lemma SplitPartsTheText(raw: string, display: nat)
    ensures var r := SplitDecimal(raw, display); r.Some? ==> PartsOf(raw, r.value)
  {
    hide ByteLen, LastMark;
    var i := LastMark(raw);
    if i >= 0 {
      assert raw == raw[..i] + [raw[i]] + raw[i + 1..];
    }
  }

  /** Every accepted text is worth a non-negative 64-bit amount that prints and reads back as
      itself. Once spaces, symbol and code are off, it is digits and marks, split at the decimal
      mark if it has one, and the amount is their positional value. */
  lemma AcceptedSurvivesPrinting(s: string, c: Currency)
    requires ParseMajor(s, c).Ok?
    ensures var a := ParseMajor(s, c).value;
      && Valid(c) && a.currency == c && 0 <= a.minor <= MAX_INT64
      && ParseMajor(MajorText(a), c) == Ok(a)
    ensures var r := SplitDecimal(Bare(s, MetaOf(c)), MetaOf(c).display);
      && r.Some? && PartsOf(Bare(s, MetaOf(c)), r.value)
      && Numeral(r.value.whole) && AllDigits(r.value.frac) && |r.value.frac| <= MetaOf(c).display <= MetaOf(c).exponent
      && ParseMajor(s, c).value.minor ==
           Positional(ValueOf(Without(r.value.whole, IsMark)), ValueOf(r.value.frac), |r.value.frac|,
             MetaOf(c).exponent)
  {
    hide Bare, ReadNumeral, MajorText, ByteLen, SplitDecimal, PartsOf, Positional, Numeral, AllDigits, ValueOf, Without;
    var raw := Bare(s, MetaOf(c));
    var split := SplitDecimal(raw, MetaOf(c).display).value;
    SplitIsShort(raw, MetaOf(c).display);
    SplitPartsTheText(raw, MetaOf(c).display);
    AcceptedNumeral(split, c);
    PrintedReadsBack(ParseMajor(s, c).value);
  }
}
