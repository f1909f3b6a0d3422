/** Postgres text arrays: the literal the key store prints, and the parser that reads what
    Postgres prints back. */
module PgArray {
  import opened Basics
  import opened Text

  // ---------- printing ----------

  /** One character inside quotes. */
  function EscapeChar(c: char): string {
    if c == '\\' || c == '"' then ['\\', c] else [c]
  }

  function Escape(s: string): string {
    if s == [] then [] else EscapeChar(s[0]) + Escape(s[1..])
  }

  function Quote(s: string): string {
    "\"" + Escape(s) + "\""
  }

  function Join(parts: seq<string>): string {
    if parts == [] then []
    else if |parts| == 1 then parts[0]
    else parts[0] + "," + Join(parts[1..])
  }

  function Quoted(elems: seq<string>): seq<string> {
    seq(|elems|, i requires 0 <= i < |elems| => Quote(elems[i]))
  }

  function Literal(elems: seq<string>): string {
    "{" + Join(Quoted(elems)) + "}"
  }

  method PgTextArrayLiteral(elems: seq<string>) returns (s: string)
    ensures s == Literal(elems)
  {
    if |elems| == 0 {
      return "{}";
    }
    var parts: seq<string> := [];
    for i := 0 to |elems|
      invariant parts == Quoted(elems)[..i]
    {
      parts := parts + [Quote(elems[i])];
    }
    assert parts == Quoted(elems);
    return "{" + Join(parts) + "}";
  }

  // ---------- reading ----------

  /** What the scan holds between two characters of the body. */
  datatype Scan = Scan(out: seq<string>, cur: string, inQuotes: bool, escaped: bool)

  const START := Scan([], [], false, false)

  function ScanChar(st: Scan, c: char): Scan {
    if st.escaped then st.(cur := st.cur + [c], escaped := false)
    else if c == '\\' then st.(escaped := true)
    else if c == '"' then st.(inQuotes := !st.inQuotes)
    else if c == ',' && !st.inQuotes then st.(out := st.out + [st.cur], cur := [])
    else st.(cur := st.cur + [c])
  }

  function ScanAll(st: Scan, body: string): Scan
    decreases |body|
  {
    if body == [] then st else ScanAll(ScanChar(st, body[0]), body[1..])
  }

  predicate Braced(s: string) {
    |s| >= 2 && s[0] == '{' && s[|s| - 1] == '}'
  }

  function Parse(s: string): Result<seq<string>, string> {
    var t := TrimSpace(s);
    if t == "" then Ok([])
    else if !Braced(t) then Err(t)
    else if t == "{}" then Ok([])
    else
      var end := ScanAll(START, t[1..|t| - 1]);
      Ok(end.out + [end.cur])
  }

  method ParsePgTextArray(s: string) returns (r: Result<seq<string>, string>)
    ensures r == Parse(s)
  {
    var t := TrimSpace(s);
    if t == "" {
      return Ok([]);
    }
    if |t| < 2 || t[0] != '{' || t[|t| - 1] != '}' {
      return Err(t);
    }
    var body := t[1..|t| - 1];
    if body == "" {
      assert t == "{}";
      return Ok([]);
    }
    var out: seq<string>, cur: string := [], [];
    var inQuotes, escaped := false, false;
    for i := 0 to |body|
      invariant ScanAll(START, body) == ScanAll(Scan(out, cur, inQuotes, escaped), body[i..])
    {
      var c := body[i];
      assert body[i..][1..] == body[i + 1..];
      if escaped {
        cur, escaped := cur + [c], false;
      } else if c == '\\' {
        escaped := true;
      } else if c == '"' {
        inQuotes := !inQuotes;
      } else if c == ',' && !inQuotes {
        out, cur := out + [cur], [];
      } else {
        cur := cur + [c];
      }
    }
    out := out + [cur];
    return Ok(out);
  }

  // ---------- the two agree ----------

  /** How an element is written: in quotes with its specials escaped, bare, or as one character after
      a backslash. */
  datatype Written = InQuotes(text: string) | Bare(text: string) | Slashed(text: string)

  function Render(w: Written): string {
    match w
    case InQuotes(text) => Quote(text)
    case Bare(text) => text
    case Slashed(text) => "\\" + text
  }

  /** Bare text has no character the parser gives a meaning to. */
  predicate Legible(w: Written) {
    match w
    case InQuotes(_) => true
    case Bare(text) => '\\' !in text && '"' !in text && ',' !in text
    case Slashed(text) => |text| == 1
  }

  function Rendered(ws: seq<Written>): seq<string> {
    seq(|ws|, i requires 0 <= i < |ws| => Render(ws[i]))
  }

  function Texts(ws: seq<Written>): seq<string> {
    seq(|ws|, i requires 0 <= i < |ws| => ws[i].text)
  }

  lemma {:induction false} ScanJoin(st: Scan, a: string, b: string)
    ensures ScanAll(st, a + b) == ScanAll(ScanAll(st, a), b)
    decreases |a|
  {
    if a == [] {
      assert a + b == b;
    } else {
      assert (a + b)[1..] == a[1..] + b;
      ScanJoin(ScanChar(st, a[0]), a[1..], b);
    }
  }

  lemma ScanOne(st: Scan, a: char)
    ensures ScanAll(st, [a]) == ScanChar(st, a)
  {
    assert [a][1..] == [];
  }

  lemma ScanTwo(st: Scan, a: char, b: char)
    ensures ScanAll(st, [a, b]) == ScanChar(ScanChar(st, a), b)
  {
    ScanOne(ScanChar(st, a), b);
    assert [a, b][1..] == [b];
  }

  lemma {:induction false} ScanEscaped(st: Scan, s: string)
    requires st.inQuotes && !st.escaped
    ensures ScanAll(st, Escape(s)) == st.(cur := st.cur + s)
    decreases |s|
  {
    if s == [] {
      assert st.cur + s == st.cur;
    } else {
      ScanJoin(st, EscapeChar(s[0]), Escape(s[1..]));
      var one := st.(cur := st.cur + [s[0]]);
      ScanOne(st, s[0]);
      ScanTwo(st, '\\', s[0]);
      assert ScanAll(st, EscapeChar(s[0])) == one;
      ScanEscaped(one, s[1..]);
      assert st.cur + [s[0]] + s[1..] == st.cur + s;
    }
  }

  lemma {:induction false} ScanBare(st: Scan, s: string)
    requires !st.inQuotes && !st.escaped && Legible(Bare(s))
    ensures ScanAll(st, s) == st.(cur := st.cur + s)
    decreases |s|
  {
    if s == [] {
      assert st.cur + s == st.cur;
    } else {
      assert s[0] in s;
      ScanBare(st.(cur := st.cur + [s[0]]), s[1..]);
      assert st.cur + [s[0]] + s[1..] == st.cur + s;
    }
  }

  lemma ScanElement(st: Scan, w: Written)
    requires !st.inQuotes && !st.escaped && Legible(w)
    ensures ScanAll(st, Render(w)) == st.(cur := st.cur + w.text)
  {
    if w.Bare? {
      ScanBare(st, w.text);
    } else if w.Slashed? {
      assert "\\" + w.text == ['\\', w.text[0]] && [w.text[0]] == w.text;
      ScanTwo(st, '\\', w.text[0]);
    } else {
      var open := st.(inQuotes := true);
      ScanJoin(st, "\"" + Escape(w.text), "\"");
      ScanJoin(st, "\"", Escape(w.text));
      assert "\""[1..] == [];
      assert ScanAll(st, "\"") == open;
      ScanEscaped(open, w.text);
      var full := open.(cur := open.cur + w.text);
      assert ScanAll(full, "\"") == full.(inQuotes := false);
    }
  }

  /** An element and the comma after it. */
  lemma ScanPart(st: Scan, w: Written)
    requires !st.inQuotes && !st.escaped && st.cur == [] && Legible(w)
    ensures ScanAll(st, Render(w) + ",") == st.(out := st.out + [w.text])
  {
    ScanElement(st, w);
    ScanJoin(st, Render(w), ",");
    assert st.cur + w.text == w.text;
    ScanOne(st.(cur := w.text), ',');
    assert "," == [','];
  }

  lemma {:induction false} ScanList(st: Scan, ws: seq<Written>)
    requires !st.inQuotes && !st.escaped && st.cur == [] && ws != []
    requires forall i :: 0 <= i < |ws| ==> Legible(ws[i])
    ensures |Texts(ws)| == |ws|
    ensures ScanAll(st, Join(Rendered(ws))) == st.(out := st.out + Texts(ws)[..|ws| - 1], cur := ws[|ws| - 1].text)
    decreases |ws|
  {
    hide ScanAll, Join, Rendered, Texts, Render, Legible;
    if |ws| == 1 {
      OneWritten(ws);
      ScanElement(st, ws[0]);
      assert st.cur + ws[0].text == ws[0].text;
      assert st.out + [] == st.out;
    } else {
      FirstWritten(ws);
      FirstText(ws);
      ScanPart(st, ws[0]);
      ScanJoin(st, Render(ws[0]) + ",", Join(Rendered(ws[1..])));
      ScanList(st.(out := st.out + [ws[0].text]), ws[1..]);
      var middle := Texts(ws[1..])[..|ws| - 2];
      assert st.out + [ws[0].text] + middle == st.out + ([ws[0].text] + middle);
    }
  }

  lemma OneWritten(ws: seq<Written>)
    requires |ws| == 1
    ensures Join(Rendered(ws)) == Render(ws[0]) && |Texts(ws)| == 1 && Texts(ws)[..0] == []
  {
  }

  lemma FirstWritten(ws: seq<Written>)
    requires |ws| > 1
    ensures Join(Rendered(ws)) == Render(ws[0]) + "," + Join(Rendered(ws[1..]))
  {
    assert Rendered(ws)[1..] == Rendered(ws[1..]);
  }

  lemma FirstText(ws: seq<Written>)
    requires |ws| > 1
    ensures |Texts(ws)| == |ws| && |Texts(ws[1..])| == |ws| - 1
    ensures Texts(ws)[..|ws| - 1] == [ws[0].text] + Texts(ws[1..])[..|ws| - 2]
  {
  }

  lemma {:induction false} JoinIsEmptyIff(parts: seq<string>)
    ensures Join(parts) == [] <==> parts == [] || parts == [[]]
  {
  }

  /** The parser reads back any list of elements, each quoted or bare, with one exception it
      cannot tell apart from the empty list: a single empty bare element. */
  lemma ParseReadsBackIff(ws: seq<Written>)
    requires forall i :: 0 <= i < |ws| ==> Legible(ws[i])
    ensures Parse("{" + Join(Rendered(ws)) + "}") == Ok(Texts(ws)) <==> ws != [Bare("")]
  {
    NothingWrittenIff(ws);
    BracedIsScanned(Join(Rendered(ws)));
    if Join(Rendered(ws)) != [] {
      ScanList(START, ws);
      LastText(ws);
      hide Join, ScanAll, Rendered, Texts, Parse;
      assert [] + Texts(ws)[..|ws| - 1] == Texts(ws)[..|ws| - 1];
    }
  }

  lemma LastText(ws: seq<Written>)
    requires ws != []
    ensures |Texts(ws)| == |ws| && Texts(ws)[..|ws| - 1] + [ws[|ws| - 1].text] == Texts(ws)
  {
  }

  lemma BracedIsScanned(body: string)
    ensures Parse("{" + body + "}") ==
      if body == [] then Ok([]) else var end := ScanAll(START, body); Ok(end.out + [end.cur])
  {
    hide ScanAll, IsSpace;
    var t := "{" + body + "}";
    assert !IsSpace('{') && !IsSpace('}') by {
      BracesAreNotSpaces();
    }
    TrimKeeps(t, IsSpace);
    assert t[1..|t| - 1] == body;
    assert body == [] ==> t == "{}";
    assert body != [] ==> |t| > |"{}"|;
  }

  lemma BracesAreNotSpaces()
    ensures !IsSpace('{') && !IsSpace('}')
  {
  }

  lemma NothingWrittenIff(ws: seq<Written>)
    ensures Join(Rendered(ws)) == [] <==> ws == [] || ws == [Bare("")]
    ensures ws == [] <==> Texts(ws) == []
  {
    JoinIsEmptyIff(Rendered(ws));
    assert Rendered([Bare("")]) == [[]];
    assert Rendered([]) == [];
    if Rendered(ws) == [[]] {
      assert Rendered(ws)[0] == Render(ws[0]);
      assert ws == [ws[0]];
    }
  }

  /** So parsing undoes printing, for every list of strings. */
  lemma ParseUndoesLiteral(elems: seq<string>)
    ensures Parse(Literal(elems)) == Ok(elems)
  {
    var ws := seq(|elems|, i requires 0 <= i < |elems| => InQuotes(elems[i]));
    ParseReadsBackIff(ws);
    assert Rendered(ws) == Quoted(elems) && Texts(ws) == elems;
    assert ws != [] ==> ws[0] == InQuotes(elems[0]);
  }

  /** Two lists never share a literal. */
  lemma LiteralIsInjective(a: seq<string>, b: seq<string>)
    requires Literal(a) == Literal(b)
    ensures a == b
  {
    ParseUndoesLiteral(a);
    ParseUndoesLiteral(b);
  }

  // ---------- the texts themselves ----------

  /** In quotes a backslash goes before each quote and backslash, and before nothing else. */
  lemma {:induction false} EscapeTells(a: string, c: char, b: string)
    ensures Escape("") == ""
    ensures Escape(a + [c] + b) == Escape(a) + (if c == '"' || c == '\\' then ['\\', c] else [c]) + Escape(b)
  {
    if a == [] {
      assert a + [c] + b == [c] + b;
      assert ([c] + b)[1..] == b;
    } else {
      assert (a + [c] + b)[1..] == a[1..] + [c] + b;
      EscapeTells(a[1..], c, b);
      var one := if c == '"' || c == '\\' then ['\\', c] else [c];
      assert EscapeChar(a[0]) + (Escape(a[1..]) + one + Escape(b))
        == EscapeChar(a[0]) + Escape(a[1..]) + one + Escape(b);
    }
  }

  lemma JoinStarts(first: string, rest: seq<string>)
    ensures Join(Quoted([first] + rest)) == Quote(first) + if rest == [] then "" else "," + Join(Quoted(rest))
  {
    var all := [first] + rest;
    assert Quoted(all) == [Quote(first)] + Quoted(rest);
    hide Quote;
    if rest == [] {
      assert Quote(first) + "" == Quote(first);
    } else {
      assert Quoted(all)[1..] == Quoted(rest);
      assert Quote(first) + "," + Join(Quoted(rest)) == Quote(first) + ("," + Join(Quoted(rest)));
    }
  }

  /** A literal is its elements in quotes, with commas between them, in braces. */
  lemma LiteralTells(first: string, rest: seq<string>)
    ensures Literal([]) == "{}"
    ensures Literal([first] + rest) ==
      "{" + (("\"" + Escape(first) + "\"") + if rest == [] then "" else "," + Literal(rest)[1..|Literal(rest)| - 1])
        + "}"
  {
    assert Quoted([]) == [] && "{" + "" + "}" == "{}";
    JoinStarts(first, rest);
    var inner := Join(Quoted(rest));
    hide Join, Quoted, Escape;
    assert ("{" + inner + "}")[1..|"{" + inner + "}"| - 1] == inner;
  }

  /** A text is refused exactly if it is more than space and not in braces, and told back trimmed. */
  lemma RefusedIff(s: string)
    ensures var t := TrimSpace(s);
      && (Parse(s).Err? <==> t != "" && !(|t| >= 2 && t[0] == '{' && t[|t| - 1] == '}'))
      && (Parse(s).Err? ==> Parse(s) == Err(t))
      && (t == "" || t == "{}" ==> Parse(s) == Ok([]))
  {
  }

  function Concat(parts: seq<string>): string {
    if parts == [] then [] else parts[0] + Concat(parts[1..])
  }

  lemma FirstPiece(ws: seq<Written>)
    requires ws != []
    ensures Concat(Rendered(ws)) == Render(ws[0]) + Concat(Rendered(ws[1..]))
    ensures Concat(Texts(ws)) == ws[0].text + Concat(Texts(ws[1..]))
  {
    hide Render;
    assert Rendered(ws)[1..] == Rendered(ws[1..]) && Texts(ws)[1..] == Texts(ws[1..]);
  }

  lemma NoPieces()
    ensures Concat(Rendered([])) == [] && Concat(Texts([])) == []
  {
  }

  lemma Longer(st: Scan, a: string, b: string)
    ensures st.(cur := st.cur + a).(cur := st.cur + a + b) == st.(cur := st.cur + (a + b))
    ensures st.(cur := st.cur + []) == st
  {
    assert st.cur + a + b == st.cur + (a + b);
    assert st.cur + [] == st.cur;
  }

  lemma {:induction false} ScanPieces(st: Scan, ws: seq<Written>)
    requires !st.inQuotes && !st.escaped && forall i :: 0 <= i < |ws| ==> Legible(ws[i])
    ensures ScanAll(st, Concat(Rendered(ws))) == st.(cur := st.cur + Concat(Texts(ws)))
    decreases |ws|
  {
    if ws == [] {
      NoPieces();
      Longer(st, [], []);
    } else {
      FirstPiece(ws);
      ScanJoin(st, Render(ws[0]), Concat(Rendered(ws[1..])));
      ScanElement(st, ws[0]);
      ScanPieces(st.(cur := st.cur + ws[0].text), ws[1..]);
      Longer(st, ws[0].text, Concat(Texts(ws[1..])));
      hide ScanAll, Rendered, Texts, Render, Legible, Concat;
    }
  }

  lemma LoneElement(text: string)
    ensures START.cur + text == text && START.out + [text] == [text]
  {
  }

  /** Quoted, bare and escaped pieces run together are one element, their texts joined. */
  lemma PiecesAreOneElement(ws: seq<Written>)
    requires forall i :: 0 <= i < |ws| ==> Legible(ws[i])
    requires Concat(Rendered(ws)) != ""
    ensures Parse("{" + Concat(Rendered(ws)) + "}") == Ok([Concat(Texts(ws))])
  {
    BracedIsScanned(Concat(Rendered(ws)));
    ScanPieces(START, ws);
    LoneElement(Concat(Texts(ws)));
    hide ScanAll, Rendered, Texts, Parse, Concat, Legible;
  }

  lemma {:induction false} ScanQuoted(st: Scan, s: string)
    requires st.inQuotes && !st.escaped && '"' !in s && '\\' !in s
    ensures ScanAll(st, s) == st.(cur := st.cur + s)
    decreases |s|
  {
    if s == [] {
      assert st.cur + s == st.cur;
    } else {
      assert s[0] in s;
      ScanQuoted(st.(cur := st.cur + [s[0]]), s[1..]);
      assert st.cur + [s[0]] + s[1..] == st.cur + s;
    }
  }

  /** A quote that is never closed takes everything after it, commas included. */
  lemma OpenQuoteRunsToTheEnd(s: string)
    requires '"' !in s && '\\' !in s
    ensures Parse("{" + ("\"" + s) + "}") == Ok([s])
  {
    BracedIsScanned("\"" + s);
    ScanJoin(START, "\"", s);
    ScanOne(START, '"');
    assert "\"" == ['"'];
    ScanQuoted(START.(inQuotes := true), s);
    LoneElement(s);
    hide ScanAll, Parse;
  }
}
