/** Decimal numerals: printing integers and reading them back as Go's strconv does. */
module Decimal {
  import opened Basics

  const MAX_INT64: int := 0x7FFF_FFFF_FFFF_FFFF
  const MIN_INT64: int := -0x8000_0000_0000_0000

  predicate IsInt64(n: int) {
    MIN_INT64 <= n <= MAX_INT64
  }

  type int64 = n: int | MIN_INT64 <= n <= MAX_INT64

  /** What a 64-bit register keeps of n. */
  function Wrap64(n: int): int {
    (n - MIN_INT64) % 0x1_0000_0000_0000_0000 + MIN_INT64
  }

  /** It differs from n by a multiple of 2^64, and not at all within 64 bits. */
  lemma WrapTells(n: int)
    ensures IsInt64(Wrap64(n)) && (n - Wrap64(n)) % 0x1_0000_0000_0000_0000 == 0
    ensures IsInt64(n) ==> Wrap64(n) == n
  {
    var m := n - MIN_INT64;
    assert n - Wrap64(n) == m / 0x1_0000_0000_0000_0000 * 0x1_0000_0000_0000_0000;
  }

  predicate IsDigit(c: char) {
    '0' <= c <= '9'
  }

  predicate AllDigits(s: string) {
    forall i :: 0 <= i < |s| ==> IsDigit(s[i])
  }

  function DigitOf(d: nat): char
    requires d < 10
  {
    '0' + d as char
  }

  function DigitValue(c: char): nat {
    if IsDigit(c) then c as int - '0' as int else 0
  }

  /** The number a run of digits denotes; a character that is no digit counts as zero. */
  function ValueOf(s: string): nat {
    if s == [] then 0 else 10 * ValueOf(s[..|s| - 1]) + DigitValue(s[|s| - 1])
  }

  function PrintNat(n: nat): string {
    if n < 10 then [DigitOf(n)] else PrintNat(n / 10) + [DigitOf(n % 10)]
  }

  function PrintInt(n: int): string {
    if n < 0 then "-" + PrintNat(-n) else PrintNat(n)
  }

  function Pow10(n: nat): nat {
    if n == 0 then 1 else 10 * Pow10(n - 1)
  }

  function Zeros(n: nat): string {
    if n == 0 then "" else Zeros(n - 1) + "0"
  }

  /** strconv.Atoi: an optional sign, then digits, within the range of an int64. */
  function Atoi(s: string): Option<int> {
    var signed := s != [] && (s[0] == '-' || s[0] == '+');
    var digits := if signed then s[1..] else s;
    if digits == [] || !AllDigits(digits) then None
    else
      var v: int := ValueOf(digits);
      var n := if signed && s[0] == '-' then -v else v;
      if MIN_INT64 <= n <= MAX_INT64 then Some(n) else None
  }

  // ---------- printing and reading agree ----------

  lemma {:induction false} PrintedValue(n: nat)
    ensures PrintNat(n) != [] && AllDigits(PrintNat(n)) && ValueOf(PrintNat(n)) == n
  {
    if n < 10 {
      assert PrintNat(n)[..0] == [];
    } else {
      PrintedValue(n / 10);
      var s := PrintNat(n);
      assert s[..|s| - 1] == PrintNat(n / 10);
    }
  }

  lemma ShiftOne(x: nat, p: nat, y: nat, d: nat)
    ensures 10 * (x * p + y) + d == x * (10 * p) + (10 * y + d)
  {
  }

  lemma {:induction false} ValueOfJoin(a: string, b: string)
    ensures ValueOf(a + b) == ValueOf(a) * Pow10(|b|) + ValueOf(b)
  {
    if b == [] {
      assert a + b == a;
    } else {
      var b' := b[..|b| - 1];
      assert (a + b)[..|a + b| - 1] == a + b';
      ValueOfJoin(a, b');
      ShiftOne(ValueOf(a), Pow10(|b'|), ValueOf(b'), DigitValue(b[|b| - 1]));
    }
  }

  lemma {:induction false} ZerosAreZero(n: nat)
    ensures |Zeros(n)| == n && AllDigits(Zeros(n)) && ValueOf(Zeros(n)) == 0
  {
    if n > 0 {
      ZerosAreZero(n - 1);
      assert Zeros(n)[..n - 1] == Zeros(n - 1);
    }
  }

  lemma {:induction false} PrintedLength(n: nat, k: nat)
    ensures n < Pow10(k) ==> |PrintNat(n)| <= if k == 0 then 1 else k
    ensures Pow10(k) <= n ==> |PrintNat(n)| > k
    decreases n
  {
    if n < 10 {
      assert k > 0 ==> Pow10(k) >= 10 by { PowGrows(k); }
    } else if k > 0 {
      PrintedLength(n / 10, k - 1);
      assert Pow10(k) == 10 * Pow10(k - 1);
    }
  }

  lemma {:induction false} PowGrows(k: nat)
    ensures Pow10(k) >= 1 && (k > 0 ==> Pow10(k) >= 10)
  {
    if k > 0 {
      PowGrows(k - 1);
    }
  }

  /** A printed number is read back, within 64 bits; it ends in a digit and starts with one or a
      minus sign. */
  lemma IntReadsBack(n: int)
    ensures var s := PrintInt(n);
      && s != "" && (s[0] == '-' || IsDigit(s[0])) && IsDigit(s[|s| - 1])
      && Atoi(s) == if IsInt64(n) then Some(n) else None
  {
    PrintedValue(if n < 0 then -n else n);
    var digits := PrintNat(if n < 0 then -n else n);
    hide PrintNat, ValueOf;
    assert IsDigit(digits[0]) && IsDigit(digits[|digits| - 1]);
    if n < 0 {
      assert PrintInt(n)[1..] == digits;
      assert PrintInt(n)[|PrintInt(n)| - 1] == digits[|digits| - 1];
    }
  }

  /** Numerals are read digit by digit, ten times the rest and the last digit's own value. */
  lemma NumeralsAreDecimal(s: string, c: char)
    requires '0' <= c <= '9'
    ensures ValueOf(s + [c]) == 10 * ValueOf(s) + (c as int - 48)
  {
    assert (s + [c])[..|s|] == s;
  }

  /** And printed without leading zeros. */
  lemma {:induction false} PrintedHasNoLeadingZero(n: nat)
    ensures n > 0 ==> PrintNat(n)[0] != '0'
  {
    if n >= 10 {
      PrintedHasNoLeadingZero(n / 10);
      PrintedValue(n / 10);
    }
  }
}
