/** The rows seeding adds, field by field, and why it stops. */
module CategoryRows {
  import opened Basics
  import opened Text
  import opened CategorySeed

  // ---------- names ----------

  function Raised(c: char): char {
    if 'a' <= c <= 'z' then (c as int - 32) as char else c
  }

  /** Title case in one pass: a separator ends a word, a word starts with a raised letter, and one
      blank stands between two words. */
  function Titled(s: string, starts: bool, first: bool): string {
    if s == [] then []
    else if s[0] == '_' || s[0] == '-' || s[0] == ' ' then Titled(s[1..], true, first)
    else if starts then (if first then [] else [' ']) + [Raised(s[0])] + Titled(s[1..], false, false)
    else [s[0]] + Titled(s[1..], false, first)
  }

  lemma Joined(a: string, b: string, c: string)
    ensures a + (b + c) == (a + b) + c
  {
  }

  lemma {:induction false} WordRunsOn(s: string, n: nat)
    requires n <= |s| && forall i :: 0 <= i < n ==> !IsSeparator(s[i])
    ensures Titled(s, false, false) == s[..n] + Titled(s[n..], false, false)
  {
    if n == 0 {
      assert s[..0] == [] && s[0..] == s;
    } else {
      assert !IsSeparator(s[0]);
      assert Titled(s, false, false) == [s[0]] + Titled(s[1..], false, false);
      WordRunsOn(s[1..], n - 1);
      hide Titled, IsSeparator;
      assert s[1..][n - 1..] == s[n..];
      assert [s[0]] + s[1..][..n - 1] == s[..n];
      Joined([s[0]], s[1..][..n - 1], Titled(s[n..], false, false));
    }
  }

  /** After a word, at a separator or the end, it does not matter whether a word is open. */
  lemma BetweenWords(s: string)
    requires s == "" || IsSeparator(s[0])
    ensures Titled(s, false, false) == Titled(s, true, false)
  {
  }

  /** One word of the pass: the raised letter, the rest of the word, and what follows. */
  lemma WordIsTitled(s: string, first: bool)
    requires s != [] && !IsSeparator(s[0])
    ensures var n := WordLength(s);
      n > 0 && Titled(s, true, first) ==
        (if first then [] else " ") + (UpperFirst(s[..n]) + Titled(s[n..], true, false))
  {
    var n := WordLength(s);
    var word, rest, blank := s[..n], s[n..], if first then [] else [' '];
    WordRunsOn(s[1..], n - 1);
    BetweenWords(rest);
    assert s[1..][..n - 1] == word[1..] && s[1..][n - 1..] == rest;
    assert UpperFirst(word) == [Raised(s[0])] + word[1..];
    assert Titled(s, true, first) == blank + [Raised(s[0])] + Titled(s[1..], false, false);
    hide Titled, UpperFirst, Raised;
    var end := Titled(rest, true, false);
    Joined([Raised(s[0])], word[1..], end);
    Joined(blank, [Raised(s[0])], word[1..] + end);
    assert " " == [' '];
  }

  /** The title of the words, after a blank unless it is the first. */
  function Spaced(words: seq<string>, first: bool): string
    requires forall i :: 0 <= i < |words| ==> words[i] != []
  {
    if words == [] then [] else (if first then [] else " ") + Title(words)
  }

  lemma {:induction false} WordsAreTitled(s: string, first: bool)
    ensures forall i :: 0 <= i < |Words(s)| ==> Words(s)[i] != []
    ensures Titled(s, true, first) == Spaced(Words(s), first)
    decreases |s|
  {
    WordsAreNotEmpty(s);
    if s == [] {
    } else if IsSeparator(s[0]) {
      WordsAreTitled(s[1..], first);
    } else {
      var n := WordLength(s);
      var word, rest := s[..n], s[n..];
      WordIsTitled(s, first);
      WordsAreTitled(rest, false);
      assert Words(s) == [word] + Words(rest);
      TitleStarts(word, Words(rest));
      hide Titled, Words, Title, UpperFirst;
    }
  }

  lemma TitleStarts(word: string, words: seq<string>)
    requires word != [] && forall i :: 0 <= i < |words| ==> words[i] != []
    ensures Title([word] + words) == UpperFirst(word) + Spaced(words, false)
  {
    assert ([word] + words)[1..] == words;
    Joined(UpperFirst(word), " ", Title(words));
    assert UpperFirst(word) + [] == UpperFirst(word);
  }

  lemma TitleCaseIsOnePass(key: string)
    ensures TitleCase(key) == Titled(key, true, true)
  {
    WordsAreTitled(key, true);
    assert [] + Title(Words(key)) == Title(Words(key));
  }

  /** A default is called what the namer says, without outer space, unless that is nothing. */
  lemma DefaultNameTells(env: Env, d: Default)
    ensures var said := if env.namer.Some? then env.namer.value("category.default." + d.key) else "";
      NameFor(env, d) == if forall c :: c in said ==> IsSpace(c) then Titled(d.key, true, true) else TrimSpace(said)
  {
    TitleCaseIsOnePass(d.key);
    TrimsAwayIff(if env.namer.Some? then env.namer.value("category.default." + d.key) else "", IsSpace);
  }

  // ---------- rows ----------

  function Lowered(c: char): char {
    if 'A' <= c <= 'Z' then (c as int + 32) as char else c
  }

  /** What a built row holds: the identity, the kind, the trimmed name and icon, the colour trimmed and
      lowered, and the place within the column. */
  ghost predicate Holds(row: Row, id: nat, name: string, d: Default, place: int) {
    && row.id == id && row.kind == d.kind && row.name == TrimSpace(name) && row.icon == TrimSpace(d.icon)
    && |row.color| == |TrimSpace(d.color)|
    && (forall i :: 0 <= i < |row.color| ==> row.color[i] == Lowered(TrimSpace(d.color)[i]))
    && row.sortOrder == (if place < 0 then 0 else if place > 0x7FFF_FFFF then 0x7FFF_FFFF else place)
  }

  /** A name of 1 to 100 characters, a known icon or none, and a chart colour, six hex digits or none:
      anything else is refused, for the first of the three that is wrong. */
  lemma NewTells(id: nat, name: string, d: Default, place: int)
    ensures var r, trimmed, icon, color := New(id, name, d, place), TrimSpace(name), TrimSpace(d.icon),
      TrimSpace(d.color);
      var named := 1 <= |trimmed| <= 100;
      var drawn := icon == "" || icon in ALLOWED_ICONS;
      var colored := color == "" || IsChart(color) || IsHex(color);
      && (r == Err(InvalidName) <==> !named)
      && (r == Err(InvalidIcon) <==> named && !drawn)
      && (r == Err(InvalidColor) <==> named && drawn && !colored)
      && (r.Ok? <==> named && drawn && colored)
      && (r.Ok? ==> Holds(r.value, id, name, d, place))
  {
    var color := TrimSpace(d.color);
    ColorsTell(color);
    hide TrimSpace, ALLOWED_ICONS, IsHexColor, IsChart, IsHex;
    if IsChartColor(color) {
      ChartColorsAreLow(color);
    }
  }

  predicate IsChart(color: string) {
    color in {"chart-1", "chart-2", "chart-3", "chart-4", "chart-5"}
  }

  predicate IsHex(color: string) {
    |color| == 7 && color[0] == '#' && forall i :: 1 <= i < 7 ==> color[i] in "0123456789abcdefABCDEF"
  }

  lemma ColorsTell(color: string)
    ensures IsChartColor(color) <==> IsChart(color)
    ensures IsHexColor(color) <==> IsHex(color)
  {
    assert "chart-1" == "chart-" + ['1'] && "chart-2" == "chart-" + ['2'] && "chart-3" == "chart-" + ['3'];
    assert "chart-4" == "chart-" + ['4'] && "chart-5" == "chart-" + ['5'];
    if IsChartColor(color) {
      assert color == "chart-" + [color[6]];
    }
    forall c: char ensures IsHexDigit(c) <==> c in "0123456789abcdefABCDEF" {
      HexDigitTells(c);
    }
  }

  lemma HexDigitTells(c: char)
    ensures IsHexDigit(c) <==> c in "0123456789abcdefABCDEF"
  {
    var digits := "0123456789abcdefABCDEF";
    if '0' <= c <= '9' {
      assert digits[c as int - 48] == c;
    } else if 'a' <= c <= 'f' {
      assert digits[c as int - 87] == c;
    } else if 'A' <= c <= 'F' {
      assert digits[c as int - 49] == c;
    }
  }

  lemma ChartColorsAreLow(s: string)
    requires IsChartColor(s)
    ensures forall i :: 0 <= i < |s| ==> Lowered(s[i]) == s[i]
  {
    assert forall i :: 0 <= i < 6 ==> s[i] == "chart-"[i];
  }

  // ---------- every seed ----------

  /** Each row added is its default's: the identity, name, kind, icon, colour and place. */
  ghost predicate RowsHold(env: Env, existing: seq<Row>, defaults: seq<Default>, n: nat, p: Progress)
    requires n <= |defaults|
  {
    && |p.made| == |p.added|
    && forall a :: 0 <= a < |p.made| ==>
         && p.made[a] < n
         && Holds(p.added[a], env.id(p.made[a]), NameFor(env, defaults[p.made[a]]), defaults[p.made[a]],
                  Place(existing, defaults, p.made[a]))
  }

  /** Why a seed stopped: at a default with a name its kind does not have yet, whose row cannot be
      built, or whose unit of work failed for another reason than that name. */
  ghost predicate StopsAt(env: Env, existing: seq<Row>, defaults: seq<Default>, i: nat, p: Progress, why: Failure)
    requires i < |defaults|
  {
    var d := defaults[i];
    && FoldName(env, NameFor(env, d)) !in Taken(env, existing + p.added, d.kind)
    && match New(env.id(i), NameFor(env, d), d, Place(existing, defaults, i))
       case Err(e) => why == e
       case Ok(_) =>
         || (env.luck(i) == StoreDown && why == SaveFailed)
         || (env.luck(i) == MarkDown && why == MarkFailed)
         || (env.luck(i) == CommitDown && why == NotCommitted)
  }

  lemma {:induction false} RowsAreTheirDefaults(env: Env, existing: seq<Row>, defaults: seq<Default>, n: nat)
    requires n <= |defaults|
    ensures RowsHold(env, existing, defaults, n, Seeded(env, existing, defaults, n))
  {
    hide Visit, Holds, NameFor, Place;
    if n > 0 {
      RowsAreTheirDefaults(env, existing, defaults, n - 1);
      var p := Seeded(env, existing, defaults, n - 1);
      if p.stopped.None? {
        VisitHolds(env, existing, defaults, n - 1, p);
      }
    }
  }

  lemma VisitHolds(env: Env, existing: seq<Row>, defaults: seq<Default>, i: nat, p: Progress)
    requires i < |defaults| && RowsHold(env, existing, defaults, i, p)
    ensures RowsHold(env, existing, defaults, i + 1, Visit(env, existing, defaults, i, p))
  {
    NewTells(env.id(i), NameFor(env, defaults[i]), defaults[i], Place(existing, defaults, i));
    hide New, Holds, NameFor, Place, FoldName, Taken;
  }

  lemma {:induction false} SeedingStopsFor(env: Env, existing: seq<Row>, defaults: seq<Default>, n: nat)
    requires n <= |defaults|
    ensures var p := Seeded(env, existing, defaults, n);
      p.stopped.Some? ==> exists i :: 0 <= i < n && StopsAt(env, existing, defaults, i, p, p.stopped.value)
  {
    hide New, NameFor, Place, FoldName, Taken;
    if n > 0 {
      SeedingStopsFor(env, existing, defaults, n - 1);
      var p, after := Seeded(env, existing, defaults, n - 1), Seeded(env, existing, defaults, n);
      if p.stopped.None? && after.stopped.Some? {
        assert after.added == p.added;
        assert StopsAt(env, existing, defaults, n - 1, after, after.stopped.value);
      }
    }
  }

  /** The folded names in plain: no row added has the lower-cased, trimmed name of an older one of its
      kind. */
  lemma AddedNamesAreNew(env: Env, existing: seq<Row>, defaults: seq<Default>, a: nat, i: nat)
    requires a < |Seeded(env, existing, defaults, |defaults|).added| && i < |existing|
    requires existing[i].kind == Seeded(env, existing, defaults, |defaults|).added[a].kind
    ensures var row := Seeded(env, existing, defaults, |defaults|).added[a];
      env.lower(TrimSpace(row.name)) != env.lower(TrimSpace(existing[i].name))
  {
    NoNameIsAddedTwice(env, existing, defaults, |defaults|);
    var row := Seeded(env, existing, defaults, |defaults|).added[a];
    assert FoldName(env, row.name) !in Taken(env, existing, row.kind);
    assert FoldName(env, existing[i].name) in Taken(env, existing, row.kind);
  }

  /** No row and no earlier default of its kind has the default's lower-cased, trimmed name. */
  ghost predicate HasNewName(env: Env, rows: seq<Row>, defaults: seq<Default>, i: nat)
    requires i < |defaults|
  {
    var d, name := defaults[i], env.lower(TrimSpace(NameFor(env, defaults[i])));
    && (forall r :: 0 <= r < |rows| && rows[r].kind == d.kind ==> env.lower(TrimSpace(rows[r].name)) != name)
    && (forall j :: 0 <= j < i && defaults[j].kind == d.kind ==>
          env.lower(TrimSpace(NameFor(env, defaults[j]))) != name)
  }

  /** And undisturbed seeding that goes through adds exactly the defaults with a new name. */
  lemma CalmSeedingAddsTheMissing(env: Env, existing: seq<Row>, defaults: seq<Default>, i: nat)
    requires Calm(env) && i < |defaults| && Seeded(env, existing, defaults, |defaults|).stopped.None?
    ensures i in Seeded(env, existing, defaults, |defaults|).made <==> HasNewName(env, existing, defaults, i)
  {
    CalmSeedingMakesTheMissing(env, existing, defaults);
    MissingIsListed(env, existing, defaults, |defaults|, i);
    MissingInPlain(env, existing, defaults, i);
    hide *;
  }

  lemma CalmSeedingMakesTheMissing(env: Env, existing: seq<Row>, defaults: seq<Default>)
    requires Calm(env) && Seeded(env, existing, defaults, |defaults|).stopped.None?
    ensures Seeded(env, existing, defaults, |defaults|).made == MissingBefore(env, existing, defaults, |defaults|)
  {
    CalmSeeding(env, existing, defaults, |defaults|);
  }

  lemma {:induction false} MissingIsListed(env: Env, rows: seq<Row>, defaults: seq<Default>, n: nat, i: nat)
    requires n <= |defaults| && i < |defaults|
    ensures i in MissingBefore(env, rows, defaults, n) <==> i < n && Missing(env, rows, defaults, i)
  {
    hide Missing;
    if n > 0 {
      MissingIsListed(env, rows, defaults, n - 1, i);
    }
  }

  lemma MissingInPlain(env: Env, rows: seq<Row>, defaults: seq<Default>, i: nat)
    requires i < |defaults|
    ensures Missing(env, rows, defaults, i) <==> HasNewName(env, rows, defaults, i)
  {
    hide NameFor, TrimSpace;
    var d := defaults[i];
    var name := FoldName(env, NameFor(env, d));
    forall r | 0 <= r < |rows| && rows[r].kind == d.kind
      ensures FoldName(env, rows[r].name) in Taken(env, rows, d.kind)
    {
    }
    if name in Taken(env, rows, d.kind) {
      var r :| 0 <= r < |rows| && rows[r].kind == d.kind && FoldName(env, rows[r].name) == name;
    }
    forall j | 0 <= j < i && d.kind == defaults[j].kind
      ensures SameName(env, defaults[j], d) <==> FoldName(env, NameFor(env, defaults[j])) == name
    {
    }
  }

  // ---------- places ----------

  /** A default's place: one past the largest order of its kind, or 0, plus how many defaults of its
      kind stand before it. */
  lemma PlaceTells(existing: seq<Row>, defaults: seq<Default>, i: nat)
    requires i < |defaults|
    ensures var before := |set j | 0 <= j < i && defaults[j].kind == defaults[i].kind|;
      var first := Place(existing, defaults, i) - before;
      && first >= 0
      && (forall r :: 0 <= r < |existing| && existing[r].kind == defaults[i].kind ==> existing[r].sortOrder < first)
      && (first > 0 ==>
            exists r :: 0 <= r < |existing| && existing[r].kind == defaults[i].kind
              && existing[r].sortOrder == first - 1)
  {
    NextIsPastAll(existing, defaults[i].kind);
    SeenIsCounted(defaults, defaults[i].kind, i);
  }

  lemma {:induction false} SeenIsCounted(defaults: seq<Default>, kind: Kind, n: nat)
    requires n <= |defaults|
    ensures SeenBefore(defaults, kind, n) == |set j | 0 <= j < n && defaults[j].kind == kind|
  {
    if n > 0 {
      SeenIsCounted(defaults, kind, n - 1);
      SeenGrowsByOne(defaults, kind, n - 1);
    }
  }

  lemma SeenGrowsByOne(defaults: seq<Default>, kind: Kind, n: nat)
    requires n < |defaults|
    ensures |set j | 0 <= j < n + 1 && defaults[j].kind == kind| ==
      |set j | 0 <= j < n && defaults[j].kind == kind| + if defaults[n].kind == kind then 1 else 0
  {
    var less := set j | 0 <= j < n && defaults[j].kind == kind;
    var all := set j | 0 <= j < n + 1 && defaults[j].kind == kind;
    assert all == if defaults[n].kind == kind then less + {n} else less;
  }
}
