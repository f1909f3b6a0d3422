/** The string helpers the parsers call. Strings are sequences of Unicode characters. */
module Text {

  /** Unicode White_Space, the set strings.TrimSpace cuts. */
  predicate IsSpace(c: char) {
    || '\t' <= c <= '\r' || c == ' ' || c == '\U{85}' || c == '\U{A0}' || c == '\U{1680}'
    || '\U{2000}' <= c <= '\U{200A}' || c == '\U{2028}' || c == '\U{2029}'
    || c == '\U{202F}' || c == '\U{205F}' || c == '\U{3000}'
  }

  function TrimLeft(s: string, cut: char -> bool): string {
    if s != [] && cut(s[0]) then TrimLeft(s[1..], cut) else s
  }

  function TrimRight(s: string, cut: char -> bool): string {
    if s != [] && cut(s[|s| - 1]) then TrimRight(s[..|s| - 1], cut) else s
  }

  function Trim(s: string, cut: char -> bool): string {
    TrimRight(TrimLeft(s, cut), cut)
  }

  function TrimSpace(s: string): string {
    Trim(s, IsSpace)
  }

  function TrimPrefix(s: string, prefix: string): string {
    if prefix <= s then s[|prefix|..] else s
  }

  /** Dropping every character the predicate selects, as ReplaceAll with "" does. */
  function Without(s: string, drop: char -> bool): string {
    if s == [] then []
    else if drop(s[0]) then Without(s[1..], drop)
    else [s[0]] + Without(s[1..], drop)
  }

  /** Nothing to cut at either end. */
  lemma TrimKeeps(s: string, cut: char -> bool)
    requires s == [] || (!cut(s[0]) && !cut(s[|s| - 1]))
    ensures Trim(s, cut) == s
  {
  }

  /** Text between runs of cut characters comes out bare. */
  lemma {:induction false} TrimUnwraps(left: string, s: string, right: string, cut: char -> bool)
    requires s == [] || (!cut(s[0]) && !cut(s[|s| - 1]))
    requires s != [] || right == []
    requires forall c :: c in left || c in right ==> cut(c)
    ensures Trim(left + s + right, cut) == s
  {
    TrimLeftDrops(left, s + right, cut);
    assert left + s + right == left + (s + right);
    TrimRightDrops(s, right, cut);
    assert s == [] ==> s + right == [];
  }

  lemma {:induction false} TrimLeftDrops(left: string, rest: string, cut: char -> bool)
    requires rest == [] || !cut(rest[0])
    requires forall c :: c in left ==> cut(c)
    ensures TrimLeft(left + rest, cut) == rest
  {
    if left == [] {
      assert left + rest == rest;
    } else {
      assert (left + rest)[1..] == left[1..] + rest;
      TrimLeftDrops(left[1..], rest, cut);
    }
  }

  lemma {:induction false} TrimRightDrops(rest: string, right: string, cut: char -> bool)
    requires rest == [] || !cut(rest[|rest| - 1])
    requires forall c :: c in right ==> cut(c)
    ensures TrimRight(rest + right, cut) == rest
  {
    if right == [] {
      assert rest + right == rest;
    } else {
      assert (rest + right)[..|rest + right| - 1] == rest + right[..|right| - 1];
      TrimRightDrops(rest, right[..|right| - 1], cut);
    }
  }

  /** Trimming leaves nothing of exactly the texts that are all cut. */
  lemma TrimsAwayIff(s: string, cut: char -> bool)
    ensures Trim(s, cut) == "" <==> forall c :: c in s ==> cut(c)
  {
    TrimsAwayLeft(s, cut);
    KeepsItsFirst(TrimLeft(s, cut), cut);
  }

  lemma {:induction false} TrimsAwayLeft(s: string, cut: char -> bool)
    ensures TrimLeft(s, cut) == "" <==> forall c :: c in s ==> cut(c)
    ensures TrimLeft(s, cut) != "" ==> !cut(TrimLeft(s, cut)[0])
  {
    if s != [] && cut(s[0]) {
      TrimsAwayLeft(s[1..], cut);
      assert s == [s[0]] + s[1..];
    }
  }

  lemma {:induction false} KeepsItsFirst(s: string, cut: char -> bool)
    requires s != "" ==> !cut(s[0])
    ensures TrimRight(s, cut) == "" ==> s == ""
  {
    if s != [] && cut(s[|s| - 1]) {
      KeepsItsFirst(s[..|s| - 1], cut);
    }
  }

  lemma {:induction false} WithoutKeeps(s: string, drop: char -> bool)
    requires forall c :: c in s ==> !drop(c)
    ensures Without(s, drop) == s
  {
    if s != [] {
      WithoutKeeps(s[1..], drop);
    }
  }

  lemma {:induction false} WithoutSplits(a: string, b: string, drop: char -> bool)
    ensures Without(a + b, drop) == Without(a, drop) + Without(b, drop)
  {
    if a == [] {
      assert a + b == b;
    } else {
      assert (a + b)[1..] == a[1..] + b;
      WithoutSplits(a[1..], b, drop);
    }
  }
}
