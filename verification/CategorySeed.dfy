/** Seeding the default categories, the preview that counts what seeding would add, and the unit of
    work that keeps the outside mirror in step. */
module CategorySeed {
  import opened Basics
  import opened Text

  const MAX_NAME_RUNES: int := 100
  const MAX_SORT_ORDER: int := 0x7FFF_FFFF

  datatype Kind = Expense | Income

  datatype Default = Default(key: string, kind: Kind, icon: string, color: string)

  datatype Row = Row(id: nat, name: string, kind: Kind, icon: string, color: string, sortOrder: int)

  datatype Failure = InvalidName | InvalidIcon | InvalidColor | AlreadyExists | SaveFailed | MarkFailed | NotCommitted
    | ListFailed

  /** A map over the kinds whose missing entries read as a zero value. */
  datatype PerKind<T> = PerKind(expense: T, income: T) {
    function At(k: Kind): T {
      if k.Expense? then expense else income
    }

    function With(k: Kind, value: T): PerKind<T> {
      if k.Expense? then this.(expense := value) else this.(income := value)
    }
  }

  // ---------- names ----------

  predicate IsSeparator(c: char) {
    c == '_' || c == '-' || c == ' '
  }

  /** How many characters the first word takes. */
  function WordLength(s: string): (n: nat)
    ensures n <= |s|
    ensures forall i :: 0 <= i < n ==> !IsSeparator(s[i])
    ensures n < |s| ==> IsSeparator(s[n])
  {
    if s == [] || IsSeparator(s[0]) then 0 else 1 + WordLength(s[1..])
  }

  /** strings.FieldsFunc on the separators: the words, none of them empty. */
  function Words(s: string): seq<string>
    decreases |s|
  {
    if s == [] then []
    else if IsSeparator(s[0]) then Words(s[1..])
    else [s[..WordLength(s)]] + Words(s[WordLength(s)..])
  }

  function UpperFirst(word: string): string
    requires word != []
  {
    [if 'a' <= word[0] <= 'z' then word[0] - 'a' + 'A' else word[0]] + word[1..]
  }

  function Title(words: seq<string>): string
    requires forall i :: 0 <= i < |words| ==> words[i] != []
  {
    if words == [] then []
    else if |words| == 1 then UpperFirst(words[0])
    else UpperFirst(words[0]) + " " + Title(words[1..])
  }

  lemma {:induction false} WordsAreNotEmpty(s: string)
    ensures forall i :: 0 <= i < |Words(s)| ==> Words(s)[i] != []
    decreases |s|
  {
    if s != [] {
      WordsAreNotEmpty(if IsSeparator(s[0]) then s[1..] else s[WordLength(s)..]);
    }
  }

  function TitleCase(key: string): string {
    WordsAreNotEmpty(key);
    Title(Words(key))
  }

  /** The service's rule: the namer's text, trimmed, or the key in title case. */
  function DefaultName(namer: Option<string -> string>, key: string): string {
    var name := if namer.Some? then TrimSpace(namer.value("category.default." + key)) else "";
    if name == "" then TitleCase(key) else name
  }

  /** The preview's own rule. */
  function DefaultCategoryName(translator: Option<string -> string>, key: string): string {
    if translator.Some? && TrimSpace(translator.value("category.default." + key)) != "" then
      TrimSpace(translator.value("category.default." + key))
    else TitleCase(key)
  }

  lemma TheTwoNameRulesAgree(namer: Option<string -> string>, key: string)
    ensures DefaultName(namer, key) == DefaultCategoryName(namer, key)
  {
  }

  // ---------- building a row ----------

  const ALLOWED_ICONS: seq<string> := [
    "utensils", "bus", "shopping-bag", "receipt", "smartphone", "heart-pulse", "house",
    "clapperboard", "graduation-cap", "users", "credit-card", "hand-heart", "circle-ellipsis",
    "banknote", "gift", "briefcase", "trending-up", "laptop", "wallet"]

  predicate IsHexDigit(c: char) {
    '0' <= c <= '9' || 'a' <= c <= 'f' || 'A' <= c <= 'F'
  }

  predicate IsHexColor(s: string) {
    |s| == 7 && s[0] == '#' && forall i :: 1 <= i < 7 ==> IsHexDigit(s[i])
  }

  predicate IsChartColor(s: string) {
    |s| == 7 && s[..6] == "chart-" && '1' <= s[6] <= '5'
  }

  function LowerAscii(s: string): string {
    seq(|s|, i requires 0 <= i < |s| => if 'A' <= s[i] <= 'Z' then s[i] - 'A' + 'a' else s[i])
  }

  function NormalName(name: string): Result<string, Failure> {
    var trimmed := TrimSpace(name);
    if trimmed == "" || |trimmed| > MAX_NAME_RUNES then Err(InvalidName) else Ok(trimmed)
  }

  function NormalIcon(icon: string): Result<string, Failure> {
    var trimmed := TrimSpace(icon);
    if trimmed == "" || trimmed in ALLOWED_ICONS then Ok(trimmed) else Err(InvalidIcon)
  }

  function NormalColor(color: string): Result<string, Failure> {
    var trimmed := TrimSpace(color);
    if trimmed == "" || IsChartColor(trimmed) then Ok(trimmed)
    else if IsHexColor(trimmed) then Ok(LowerAscii(trimmed))
    else Err(InvalidColor)
  }

  function ClampSortOrder(v: int): int {
    if v < 0 then 0 else if v > MAX_SORT_ORDER then MAX_SORT_ORDER else v
  }

  function New(id: nat, name: string, d: Default, sortOrder: int): Result<Row, Failure> {
    if NormalName(name).Err? then Err(NormalName(name).error)
    else if NormalIcon(d.icon).Err? then Err(NormalIcon(d.icon).error)
    else if NormalColor(d.color).Err? then Err(NormalColor(d.color).error)
    else
      Ok(Row(id, NormalName(name).value, d.kind, NormalIcon(d.icon).value, NormalColor(d.color).value,
             ClampSortOrder(sortOrder)))
  }

  // ---------- what seeding depends on ----------

  /** How one unit of work goes. */
  datatype Luck = Fine | NameTaken | StoreDown | MarkDown | CommitDown

  function FailureOf(luck: Luck): Failure
    requires !luck.Fine?
  {
    match luck
    case NameTaken => AlreadyExists
    case StoreDown => SaveFailed
    case MarkDown => MarkFailed
    case CommitDown => NotCommitted
  }

  /** Lower case, the namer if there is one, and for each default the identity its row would get
      and how its unit of work goes. */
  datatype Env = Env(lower: string -> string, namer: Option<string -> string>, id: nat -> nat, luck: nat -> Luck)

  function FoldName(env: Env, name: string): string {
    env.lower(TrimSpace(name))
  }

  function NameFor(env: Env, d: Default): string {
    DefaultName(env.namer, d.key)
  }

  /** The folded names of a kind's rows. */
  function Taken(env: Env, rows: seq<Row>, kind: Kind): set<string> {
    set i | 0 <= i < |rows| && rows[i].kind == kind :: FoldName(env, rows[i].name)
  }

  /** One past the largest sort order of the kind, 0 at the least. */
  function NextOrder(rows: seq<Row>, kind: Kind): int {
    if rows == [] then 0
    else
      var next, last := NextOrder(rows[..|rows| - 1], kind), rows[|rows| - 1];
      if last.kind == kind && last.sortOrder >= next then last.sortOrder + 1 else next
  }

  /** How many of the first n defaults are of the kind. */
  function SeenBefore(defaults: seq<Default>, kind: Kind, n: nat): nat
    requires n <= |defaults|
  {
    if n == 0 then 0 else SeenBefore(defaults, kind, n - 1) + if defaults[n - 1].kind == kind then 1 else 0
  }

  /** The sort order default i asks for. Defaults that are skipped use up a place too. */
  function Place(existing: seq<Row>, defaults: seq<Default>, i: nat): int
    requires i < |defaults|
  {
    NextOrder(existing, defaults[i].kind) + SeenBefore(defaults, defaults[i].kind, i)
  }

  // ---------- seeding ----------

  /** The defaults added so far, their rows, and the error that stopped it. */
  datatype Progress = Progress(made: seq<nat>, added: seq<Row>, stopped: Option<Failure>)

  function Visit(env: Env, existing: seq<Row>, defaults: seq<Default>, i: nat, p: Progress): Progress
    requires i < |defaults|
  {
    var d := defaults[i];
    var name := NameFor(env, d);
    if FoldName(env, name) in Taken(env, existing + p.added, d.kind) then p
    else
      var row := New(env.id(i), name, d, Place(existing, defaults, i));
      if row.Err? then p.(stopped := Some(row.error))
      else if env.luck(i).Fine? then p.(made := p.made + [i], added := p.added + [row.value])
      else if env.luck(i).NameTaken? then p
      else p.(stopped := Some(FailureOf(env.luck(i))))
  }

  function Seeded(env: Env, existing: seq<Row>, defaults: seq<Default>, n: nat): (p: Progress)
    requires n <= |defaults|
    ensures |p.made| == |p.added|
  {
    if n == 0 then Progress([], [], None)
    else
      var p := Seeded(env, existing, defaults, n - 1);
      if p.stopped.Some? then p else Visit(env, existing, defaults, n - 1, p)
  }

  function Ids(rows: seq<Row>): seq<nat> {
    seq(|rows|, i requires 0 <= i < |rows| => rows[i].id)
  }

  lemma TakenGrows(env: Env, rows: seq<Row>, row: Row, kind: Kind)
    ensures Taken(env, rows + [row], kind) ==
      Taken(env, rows, kind) + if row.kind == kind then {FoldName(env, row.name)} else {}
  {
    var longer := rows + [row];
    forall x | x in Taken(env, rows, kind) ensures x in Taken(env, longer, kind) {
      var i :| 0 <= i < |rows| && rows[i].kind == kind && x == FoldName(env, rows[i].name);
      assert longer[i] == rows[i];
    }
    assert longer[|rows|] == row;
  }

  lemma TakenUpTo(env: Env, rows: seq<Row>, i: nat, kind: Kind)
    requires i < |rows|
    ensures Taken(env, rows[..i + 1], kind) ==
      Taken(env, rows[..i], kind) + if rows[i].kind == kind then {FoldName(env, rows[i].name)} else {}
  {
    assert rows[..i + 1] == rows[..i] + [rows[i]];
    TakenGrows(env, rows[..i], rows[i], kind);
  }

  lemma {:induction false} FoldIgnoresTrimming(env: Env, name: string)
    ensures FoldName(env, TrimSpace(name)) == FoldName(env, name)
  {
    TrimLeaves(name);
    TrimKeeps(TrimSpace(name), IsSpace);
  }

  lemma {:induction false} TrimLeaves(s: string)
    ensures var t := TrimSpace(s); t == "" || (!IsSpace(t[0]) && !IsSpace(t[|t| - 1]))
  {
    TrimLeftLeaves(s);
    TrimRightLeaves(TrimLeft(s, IsSpace));
  }

  lemma {:induction false} TrimLeftLeaves(s: string)
    ensures var t := TrimLeft(s, IsSpace); t == "" || !IsSpace(t[0])
  {
    if s != [] && IsSpace(s[0]) {
      TrimLeftLeaves(s[1..]);
    }
  }

  lemma {:induction false} TrimRightLeaves(s: string)
    requires s == "" || !IsSpace(s[0])
    ensures var t := TrimRight(s, IsSpace); t == "" || (!IsSpace(t[0]) && !IsSpace(t[|t| - 1]))
  {
    if s != [] && IsSpace(s[|s| - 1]) {
      TrimRightLeaves(s[..|s| - 1]);
    }
  }

  // ---------- the service ----------

  class Service {
    var rows: seq<Row>
    /** Identities marked for the mirror, committed together with the rows. */
    var marks: seq<nat>
    /** Calls that told the mirror to look, each with the identities it named. */
    var kicks: seq<seq<nat>>

    constructor (rows: seq<Row>)
      ensures this.rows == rows && marks == [] && kicks == []
    {
      this.rows, marks, kicks := rows, [], [];
    }

    /** Saves a row and marks it in one unit of work. */
    method Commit(row: Row, luck: Luck) returns (r: Result<seq<nat>, Failure>)
      modifies this`rows, this`marks
      ensures luck.Fine? ==> r == Ok([row.id]) && rows == old(rows) + [row] && marks == old(marks) + [row.id]
      ensures !luck.Fine? ==> r == Err(FailureOf(luck)) && rows == old(rows) && marks == old(marks)
    {
      var rowsBefore, marksBefore := rows, marks;
      var refs: seq<nat> := [];
      var inner: Option<Failure> := None;
      if luck.NameTaken? {
        inner := Some(AlreadyExists);
      } else if luck.StoreDown? {
        inner := Some(SaveFailed);
      } else {
        rows, refs := rows + [row], [row.id];
      }
      if inner.None? {
        if luck.MarkDown? {
          inner := Some(MarkFailed);
        } else {
          marks := marks + refs;
        }
      }
      var rolledBack := inner.Some? || luck.CommitDown?;
      if rolledBack {
        rows, marks := rowsBefore, marksBefore;
      }
      if inner.Some? {
        return Err(inner.value);
      }
      if rolledBack {
        return Err(NotCommitted);
      }
      return Ok(refs);
    }

    /** Adds every default whose folded name its kind does not have yet. Whatever stops it, the
        rows committed, the marks and the one kick name the same rows. */
    method SeedDefaults(env: Env, defaults: seq<Default>, listed: bool) returns (added: nat, err: Option<Failure>)
      modifies this
      ensures !listed ==>
        rows == old(rows) && marks == old(marks) && kicks == old(kicks) && added == 0 && err == Some(ListFailed)
      ensures listed ==>
        var p := Seeded(env, old(rows), defaults, |defaults|);
        && rows == old(rows) + p.added && marks == old(marks) + Ids(p.added)
        && kicks == old(kicks) + [Ids(p.added)]
        && added == |p.added| && err == p.stopped
    {
      hide Taken, NextOrder, Seeded, Visit, New, Ids, FoldName, NameFor;
      if !listed {
        return 0, Some(ListFailed);
      }
      var existing := rows;
      var taken, next := Survey(env, existing);
      added, err := 0, None;
      var kick: seq<nat> := [];
      var seen: PerKind<int> := PerKind(0, 0);
      ghost var p := Progress([], [], None);
      SeedingStarts(env, existing, defaults);
      var i := 0;
      while i < |defaults| && err.None?
        invariant 0 <= i <= |defaults|
        invariant forall k :: next.At(k) == NextOrder(existing, k)
        invariant p == Seeded(env, existing, defaults, i) && err == p.stopped
        invariant forall k :: taken.At(k) == Taken(env, existing + p.added, k)
        invariant err.None? ==> forall k :: seen.At(k) == SeenBefore(defaults, k, i)
        invariant rows == existing + p.added && marks == old(marks) + Ids(p.added) && kick == Ids(p.added)
        invariant added == |p.added| && kicks == old(kicks)
      {
        var d := defaults[i];
        var sortOrder := next.At(d.kind) + seen.At(d.kind);
        seen := seen.With(d.kind, seen.At(d.kind) + 1);
        VisitForms(env, existing, defaults, i, p);
        p := Visit(env, existing, defaults, i, p);
        var name := NameFor(env, d);
        if FoldName(env, name) !in taken.At(d.kind) {
          var c := New(env.id(i), name, d, sortOrder);
          if c.Err? {
            err := Some(c.error);
          } else {
            var refs := Commit(c.value, env.luck(i));
            if refs.Err? {
              if !refs.error.AlreadyExists? {
                err := Some(refs.error);
              }
            } else {
              kick := kick + refs.value;
              taken := taken.With(d.kind, taken.At(d.kind) + {FoldName(env, name)});
              added := added + 1;
            }
          }
        }
        i := i + 1;
      }
      SeededStays(env, existing, defaults, i);
      kicks := kicks + [kick];
    }
  }

  /** What seeding learns from the rows there are: the folded names and the next sort order of
      each kind. */
  method Survey(env: Env, existing: seq<Row>) returns (taken: PerKind<set<string>>, next: PerKind<int>)
    ensures forall k :: taken.At(k) == Taken(env, existing, k)
    ensures forall k :: next.At(k) == NextOrder(existing, k)
  {
    taken, next := PerKind({}, {}), PerKind(0, 0);
    assert existing[..0] == [];
    for i := 0 to |existing|
      invariant forall k :: taken.At(k) == Taken(env, existing[..i], k)
      invariant forall k :: next.At(k) == NextOrder(existing[..i], k)
    {
      hide Taken, FoldName;
      var c := existing[i];
      assert existing[..i + 1][..i] == existing[..i];
      TakenUpTo(env, existing, i, Expense);
      TakenUpTo(env, existing, i, Income);
      taken := taken.With(c.kind, taken.At(c.kind) + {FoldName(env, c.name)});
      if c.sortOrder >= next.At(c.kind) {
        next := next.With(c.kind, c.sortOrder + 1);
      }
    }
    assert existing[..|existing|] == existing;
  }

  lemma SeedingStarts(env: Env, existing: seq<Row>, defaults: seq<Default>)
    ensures Seeded(env, existing, defaults, 0) == Progress([], [], None)
    ensures existing + [] == existing && Ids([]) == []
  {
  }

  /** Each way a visit can go, and what it does to the names taken and the rows named. */
  lemma VisitForms(env: Env, existing: seq<Row>, defaults: seq<Default>, i: nat, p: Progress)
    requires i < |defaults| && p == Seeded(env, existing, defaults, i) && p.stopped.None?
    ensures Seeded(env, existing, defaults, i + 1) == Visit(env, existing, defaults, i, p)
    ensures var d, name, after := defaults[i], NameFor(env, defaults[i]), Visit(env, existing, defaults, i, p);
      var row, luck := New(env.id(i), name, d, Place(existing, defaults, i)), env.luck(i);
      if FoldName(env, name) in Taken(env, existing + p.added, d.kind) then after == p
      else if row.Err? then after == p.(stopped := Some(row.error))
      else if luck.Fine? then
        && after == p.(made := p.made + [i], added := p.added + [row.value])
        && existing + after.added == existing + p.added + [row.value]
        && Ids(after.added) == Ids(p.added) + [row.value.id]
        && (forall k :: Taken(env, existing + after.added, k) ==
              Taken(env, existing + p.added, k) + if k == d.kind then {FoldName(env, name)} else {})
      else if luck.NameTaken? then after == p
      else after == p.(stopped := Some(FailureOf(luck)))
  {
    hide Taken, NextOrder, Place, NormalIcon, NormalColor, ClampSortOrder;
    var d, name := defaults[i], NameFor(env, defaults[i]);
    var row := New(env.id(i), name, d, Place(existing, defaults, i));
    hide DefaultName, NameFor;
    if row.Ok? {
      var longer := p.added + [row.value];
      FoldIgnoresTrimming(env, name);
      assert existing + longer == existing + p.added + [row.value];
      assert Ids(longer) == Ids(p.added) + [row.value.id];
      forall k ensures Taken(env, existing + longer, k) ==
          Taken(env, existing + p.added, k) + if k == d.kind then {FoldName(env, name)} else {} {
        TakenGrows(env, existing + p.added, row.value, k);
      }
    }
  }

  /** Once stopped, later defaults change nothing. */
  lemma {:induction false} SeededStays(env: Env, existing: seq<Row>, defaults: seq<Default>, i: nat)
    requires i <= |defaults| && (i == |defaults| || Seeded(env, existing, defaults, i).stopped.Some?)
    ensures Seeded(env, existing, defaults, |defaults|) == Seeded(env, existing, defaults, i)
    decreases |defaults| - i
  {
    hide Visit;
    if i < |defaults| {
      SeededStays(env, existing, defaults, i + 1);
    }
  }

  // ---------- the preview ----------

  /** Default i is missing: no row of its kind folds to its name, and no earlier default of its
      kind does. */
  predicate Missing(env: Env, rows: seq<Row>, defaults: seq<Default>, i: nat)
    requires i < |defaults|
  {
    && FoldName(env, NameFor(env, defaults[i])) !in Taken(env, rows, defaults[i].kind)
    && forall j :: 0 <= j < i ==> !SameName(env, defaults[j], defaults[i])
  }

  predicate SameName(env: Env, d: Default, e: Default) {
    d.kind == e.kind && FoldName(env, NameFor(env, d)) == FoldName(env, NameFor(env, e))
  }

  function MissingBefore(env: Env, rows: seq<Row>, defaults: seq<Default>, n: nat): seq<nat>
    requires n <= |defaults|
  {
    if n == 0 then []
    else MissingBefore(env, rows, defaults, n - 1) + if Missing(env, rows, defaults, n - 1) then [n - 1] else []
  }

  /** The folded names of a kind's defaults among the first n. */
  function NamesBefore(env: Env, defaults: seq<Default>, kind: Kind, n: nat): set<string>
    requires n <= |defaults|
  {
    set i | 0 <= i < n && defaults[i].kind == kind :: FoldName(env, NameFor(env, defaults[i]))
  }

  lemma MissingMeans(env: Env, rows: seq<Row>, defaults: seq<Default>, i: nat)
    requires i < |defaults|
    ensures Missing(env, rows, defaults, i) <==>
      FoldName(env, NameFor(env, defaults[i])) !in
        Taken(env, rows, defaults[i].kind) + NamesBefore(env, defaults, defaults[i].kind, i)
  {
    hide FoldName, NameFor, Taken;
    var d, names := defaults[i], NamesBefore(env, defaults, defaults[i].kind, i);
    forall j | 0 <= j < i && SameName(env, defaults[j], d) ensures FoldName(env, NameFor(env, d)) in names {
    }
    if FoldName(env, NameFor(env, d)) in names {
      var j :| 0 <= j < i && defaults[j].kind == d.kind
        && FoldName(env, NameFor(env, d)) == FoldName(env, NameFor(env, defaults[j]));
      assert SameName(env, defaults[j], d);
    }
  }

  lemma NamesGrow(env: Env, defaults: seq<Default>, kind: Kind, n: nat)
    requires n < |defaults|
    ensures NamesBefore(env, defaults, kind, n + 1) == NamesBefore(env, defaults, kind, n) +
      if defaults[n].kind == kind then {FoldName(env, NameFor(env, defaults[n]))} else {}
  {
  }

  /** Counts what seeding would add, by its own loop over the same names. */
  method PendingDefaults(env: Env, rows: seq<Row>, defaults: seq<Default>) returns (count: nat)
    ensures count == |MissingBefore(env, rows, defaults, |defaults|)|
  {
    hide Taken, FoldName, Missing, NamesBefore, DefaultName, DefaultCategoryName;
    var taken, _ := Survey(env, rows);
    count := 0;
    NoNamesYet(env, defaults);
    for i := 0 to |defaults|
      invariant forall k :: taken.At(k) == Taken(env, rows, k) + NamesBefore(env, defaults, k, i)
      invariant count == |MissingBefore(env, rows, defaults, i)|
    {
      var d := defaults[i];
      TheTwoNameRulesAgree(env.namer, d.key);
      MissingMeans(env, rows, defaults, i);
      NamesGrow(env, defaults, Expense, i);
      NamesGrow(env, defaults, Income, i);
      var name := FoldName(env, DefaultCategoryName(env.namer, d.key));
      if name in taken.At(d.kind) {
        continue;
      }
      taken := taken.With(d.kind, taken.At(d.kind) + {name});
      count := count + 1;
    }
  }

  lemma NoNamesYet(env: Env, defaults: seq<Default>)
    ensures forall k :: NamesBefore(env, defaults, k, 0) == {}
  {
  }

  // ---------- the preview and the seed agree ----------

  /** No unit of work fails. */
  ghost predicate Calm(env: Env) {
    forall i :: env.luck(i).Fine?
  }

  /** Whether a row can be built for the default at all. */
  predicate Fits(env: Env, d: Default) {
    && 1 <= |TrimSpace(NameFor(env, d))| <= MAX_NAME_RUNES
    && NormalIcon(d.icon).Ok? && NormalColor(d.color).Ok?
  }

  lemma NewFits(env: Env, d: Default, id: nat, order: int)
    ensures New(id, NameFor(env, d), d, order).Ok? <==> Fits(env, d)
  {
  }

  ghost predicate AllTaken(env: Env, existing: seq<Row>, defaults: seq<Default>, n: nat)
    requires n <= |defaults|
  {
    forall k :: Taken(env, existing + Seeded(env, existing, defaults, n).added, k) ==
      Taken(env, existing, k) + NamesBefore(env, defaults, k, n)
  }

  ghost predicate MissingFit(env: Env, existing: seq<Row>, defaults: seq<Default>, n: nat)
    requires n <= |defaults|
  {
    forall i :: 0 <= i < n && Missing(env, existing, defaults, i) ==> Fits(env, defaults[i])
  }

  /** Undisturbed seeding adds the missing defaults in order, up to the first that does not fit. */
  lemma {:induction false} CalmSeeding(env: Env, existing: seq<Row>, defaults: seq<Default>, n: nat)
    requires Calm(env) && n <= |defaults|
    ensures var p, missing := Seeded(env, existing, defaults, n), MissingBefore(env, existing, defaults, n);
      && (p.stopped.None? <==> MissingFit(env, existing, defaults, n))
      && (if p.stopped.None? then p.made == missing && AllTaken(env, existing, defaults, n)
          else |p.made| < |missing|)
  {
    hide Visit, Fits, Missing, Taken, NamesBefore;
    if n == 0 {
      NoNamesYet(env, defaults);
      SeedingStarts(env, existing, defaults);
    } else {
      CalmSeeding(env, existing, defaults, n - 1);
      var p := Seeded(env, existing, defaults, n - 1);
      if p.stopped.None? {
        CalmVisit(env, existing, defaults, n - 1);
      } else {
        var i :| 0 <= i < n - 1 && Missing(env, existing, defaults, i) && !Fits(env, defaults[i]);
        assert !MissingFit(env, existing, defaults, n);
      }
    }
  }

  lemma CalmVisit(env: Env, existing: seq<Row>, defaults: seq<Default>, i: nat)
    requires Calm(env) && i < |defaults|
    requires Seeded(env, existing, defaults, i).stopped.None?
    requires AllTaken(env, existing, defaults, i) && MissingFit(env, existing, defaults, i)
    ensures var p, after := Seeded(env, existing, defaults, i), Seeded(env, existing, defaults, i + 1);
      if !Missing(env, existing, defaults, i) then after == p && AllTaken(env, existing, defaults, i + 1)
      else if Fits(env, defaults[i]) then
        after.stopped.None? && after.made == p.made + [i] && AllTaken(env, existing, defaults, i + 1)
      else after.stopped.Some? && after.made == p.made
    ensures MissingFit(env, existing, defaults, i + 1) <==>
      (Missing(env, existing, defaults, i) ==> Fits(env, defaults[i]))
  {
    hide Seeded, Visit, New, Taken, FoldName, NameFor, Missing, Fits, NamesBefore, Place, Ids;
    VisitForms(env, existing, defaults, i, Seeded(env, existing, defaults, i));
    MissingMeans(env, existing, defaults, i);
    NewFits(env, defaults[i], env.id(i), Place(existing, defaults, i));
    forall k ensures NamesBefore(env, defaults, k, i + 1) == NamesBefore(env, defaults, k, i) +
        if defaults[i].kind == k then {FoldName(env, NameFor(env, defaults[i]))} else {} {
      NamesGrow(env, defaults, k, i);
    }
  }

  /** With no failures around it, seeding adds as many as the preview counts exactly when every
      missing default can be built; the preview never looks at that. */
  lemma PreviewAgreesIff(env: Env, existing: seq<Row>, defaults: seq<Default>)
    requires Calm(env)
    ensures |Seeded(env, existing, defaults, |defaults|).added| == |MissingBefore(env, existing, defaults, |defaults|)|
      <==> MissingFit(env, existing, defaults, |defaults|)
  {
    CalmSeeding(env, existing, defaults, |defaults|);
  }

  // ---------- seeding again ----------

  lemma {:induction false} NothingToAdd(env: Env, rows: seq<Row>, defaults: seq<Default>, n: nat)
    requires n <= |defaults|
    requires forall i :: 0 <= i < |defaults| ==>
      FoldName(env, NameFor(env, defaults[i])) in Taken(env, rows, defaults[i].kind)
    ensures Seeded(env, rows, defaults, n) == Progress([], [], None)
  {
    hide FoldName, NameFor, Taken, New;
    if n > 0 {
      NothingToAdd(env, rows, defaults, n - 1);
      assert rows + [] == rows;
    }
  }

  /** After an undisturbed seed that went through, a second one adds nothing, whatever fails
      around it. */
  lemma SecondSeedAddsNothing(env: Env, again: Env, existing: seq<Row>, defaults: seq<Default>)
    requires Calm(env) && again.lower == env.lower && again.namer == env.namer
    requires Seeded(env, existing, defaults, |defaults|).stopped.None?
    ensures Seeded(again, existing + Seeded(env, existing, defaults, |defaults|).added, defaults, |defaults|)
      == Progress([], [], None)
  {
    CalmSeeding(env, existing, defaults, |defaults|);
    var rows := existing + Seeded(env, existing, defaults, |defaults|).added;
    forall i | 0 <= i < |defaults|
      ensures FoldName(again, NameFor(again, defaults[i])) in Taken(again, rows, defaults[i].kind)
    {
      SameFold(env, again, rows, defaults[i]);
      assert FoldName(env, NameFor(env, defaults[i])) in NamesBefore(env, defaults, defaults[i].kind, |defaults|);
    }
    NothingToAdd(again, rows, defaults, |defaults|);
  }

  lemma SameFold(env: Env, again: Env, rows: seq<Row>, d: Default)
    requires again.lower == env.lower && again.namer == env.namer
    ensures FoldName(again, NameFor(again, d)) == FoldName(env, NameFor(env, d))
    ensures Taken(again, rows, d.kind) == Taken(env, rows, d.kind)
  {
    assert forall i :: 0 <= i < |rows| ==> FoldName(again, rows[i].name) == FoldName(env, rows[i].name);
  }

  // ---------- every seed, whatever fails ----------

  predicate NamesApart(env: Env, existing: seq<Row>, added: seq<Row>) {
    && (forall a :: 0 <= a < |added| ==> FoldName(env, added[a].name) !in Taken(env, existing, added[a].kind))
    && (forall a, b :: 0 <= a < b < |added| && added[a].kind == added[b].kind ==>
          FoldName(env, added[a].name) != FoldName(env, added[b].name))
  }

  /** No folded name is added twice to a kind, nor one it already had. */
  lemma {:induction false} NoNameIsAddedTwice(env: Env, existing: seq<Row>, defaults: seq<Default>, n: nat)
    requires n <= |defaults|
    ensures NamesApart(env, existing, Seeded(env, existing, defaults, n).added)
  {
    hide Visit, NamesApart;
    if n == 0 {
      NothingIsApart(env, existing);
    } else {
      NoNameIsAddedTwice(env, existing, defaults, n - 1);
      var p := Seeded(env, existing, defaults, n - 1);
      if p.stopped.None? {
        VisitApart(env, existing, defaults, n - 1);
      }
    }
  }

  lemma NothingIsApart(env: Env, existing: seq<Row>)
    ensures NamesApart(env, existing, [])
  {
  }

  lemma VisitApart(env: Env, existing: seq<Row>, defaults: seq<Default>, i: nat)
    requires i < |defaults| && Seeded(env, existing, defaults, i).stopped.None?
    requires NamesApart(env, existing, Seeded(env, existing, defaults, i).added)
    ensures NamesApart(env, existing, Seeded(env, existing, defaults, i + 1).added)
  {
    var p, name := Seeded(env, existing, defaults, i), NameFor(env, defaults[i]);
    var row := New(env.id(i), name, defaults[i], Place(existing, defaults, i));
    VisitForms(env, existing, defaults, i, p);
    if row.Ok? && FoldName(env, name) !in Taken(env, existing + p.added, defaults[i].kind) {
      FoldIgnoresTrimming(env, name);
      hide Seeded, Visit, FoldName, NameFor, Place, Taken, Ids, NamesApart;
      OneMoreApart(env, existing, p.added, row.value);
    }
  }

  lemma OneMoreApart(env: Env, existing: seq<Row>, added: seq<Row>, row: Row)
    requires NamesApart(env, existing, added)
    requires FoldName(env, row.name) !in Taken(env, existing + added, row.kind)
    ensures NamesApart(env, existing, added + [row])
  {
    hide FoldName, Taken;
    TakenSub(env, existing, added, row.kind);
    forall a | 0 <= a < |added| ensures FoldName(env, added[a].name) in Taken(env, existing + added, added[a].kind) {
      TakenHas(env, existing, added, a);
    }
  }

  lemma TakenHas(env: Env, existing: seq<Row>, added: seq<Row>, a: nat)
    requires a < |added|
    ensures FoldName(env, added[a].name) in Taken(env, existing + added, added[a].kind)
  {
    assert (existing + added)[|existing| + a] == added[a];
  }

  lemma TakenSub(env: Env, existing: seq<Row>, added: seq<Row>, kind: Kind)
    ensures Taken(env, existing, kind) <= Taken(env, existing + added, kind)
  {
    forall x | x in Taken(env, existing, kind) ensures x in Taken(env, existing + added, kind) {
      var i :| 0 <= i < |existing| && existing[i].kind == kind && x == FoldName(env, existing[i].name);
      assert (existing + added)[i] == existing[i];
    }
  }

  // ---------- sort orders ----------

  lemma {:induction false} NextIsPastAll(rows: seq<Row>, kind: Kind)
    ensures NextOrder(rows, kind) >= 0
    ensures forall i :: 0 <= i < |rows| && rows[i].kind == kind ==> rows[i].sortOrder < NextOrder(rows, kind)
    ensures NextOrder(rows, kind) > 0 ==>
      exists i :: 0 <= i < |rows| && rows[i].kind == kind && rows[i].sortOrder == NextOrder(rows, kind) - 1
  {
    if rows != [] {
      NextIsPastAll(rows[..|rows| - 1], kind);
    }
  }

  lemma {:induction false} PlacesGrow(existing: seq<Row>, defaults: seq<Default>, i: nat, j: nat)
    requires i < j < |defaults| && defaults[i].kind == defaults[j].kind
    ensures NextOrder(existing, defaults[i].kind) <= Place(existing, defaults, i) < Place(existing, defaults, j)
  {
    SeenGrows(defaults, defaults[i].kind, i, j);
  }

  lemma {:induction false} SeenGrows(defaults: seq<Default>, kind: Kind, i: nat, j: nat)
    requires i < j <= |defaults| && defaults[i].kind == kind
    ensures SeenBefore(defaults, kind, i) < SeenBefore(defaults, kind, j)
  {
    if i < j - 1 {
      SeenGrows(defaults, kind, i, j - 1);
    }
  }

  /** Where the added rows come from. */
  predicate MadeFrom(existing: seq<Row>, defaults: seq<Default>, n: nat, p: Progress)
    requires n <= |defaults|
  {
    && |p.made| == |p.added|
    && (forall a :: 0 <= a < |p.made| ==>
          && p.made[a] < n && p.added[a].kind == defaults[p.made[a]].kind
          && p.added[a].sortOrder == ClampSortOrder(Place(existing, defaults, p.made[a])))
    && (forall a, b :: 0 <= a < b < |p.made| ==> p.made[a] < p.made[b])
  }

  lemma MadeMore(existing: seq<Row>, defaults: seq<Default>, i: nat, p: Progress, row: Row, stopped: Option<Failure>)
    requires i < |defaults| && MadeFrom(existing, defaults, i, p)
    ensures MadeFrom(existing, defaults, i + 1, p.(stopped := stopped))
    ensures row.kind == defaults[i].kind && row.sortOrder == ClampSortOrder(Place(existing, defaults, i)) ==>
      MadeFrom(existing, defaults, i + 1, p.(made := p.made + [i], added := p.added + [row]))
  {
    hide Place, ClampSortOrder;
  }

  lemma NothingMade(env: Env, existing: seq<Row>, defaults: seq<Default>)
    ensures MadeFrom(existing, defaults, 0, Seeded(env, existing, defaults, 0))
  {
  }

  lemma {:induction false} RowsAreMadeInOrder(env: Env, existing: seq<Row>, defaults: seq<Default>, n: nat)
    requires n <= |defaults|
    ensures MadeFrom(existing, defaults, n, Seeded(env, existing, defaults, n))
  {
    if n == 0 {
      NothingMade(env, existing, defaults);
    } else {
      RowsAreMadeInOrder(env, existing, defaults, n - 1);
      VisitMakes(env, existing, defaults, n - 1, Seeded(env, existing, defaults, n - 1));
    }
  }

  lemma VisitMakes(env: Env, existing: seq<Row>, defaults: seq<Default>, i: nat, p: Progress)
    requires i < |defaults| && p == Seeded(env, existing, defaults, i) && MadeFrom(existing, defaults, i, p)
    ensures MadeFrom(existing, defaults, i + 1, Seeded(env, existing, defaults, i + 1))
  {
    hide Visit, New, Taken, FoldName, NameFor, Place, Ids, ClampSortOrder, MadeFrom;
    var after := Seeded(env, existing, defaults, i + 1);
    var name, place := NameFor(env, defaults[i]), Place(existing, defaults, i);
    var row := New(env.id(i), name, defaults[i], place);
    NewKeeps(env.id(i), name, defaults[i], place);
    if p.stopped.None? {
      VisitForms(env, existing, defaults, i, p);
    }
    MadeMore(existing, defaults, i, p, if row.Ok? then row.value else Row(0, "", Expense, "", "", 0), after.stopped);
  }

  lemma NewKeeps(id: nat, name: string, d: Default, order: int)
    ensures var r := New(id, name, d, order);
      r.Ok? ==> r.value.kind == d.kind && r.value.sortOrder == ClampSortOrder(order)
  {
  }

  /** The new rows of each kind come after all the old ones and after each other. */
  predicate OrdersAreFresh(existing: seq<Row>, added: seq<Row>) {
    && (forall a, i :: 0 <= a < |added| && 0 <= i < |existing| && existing[i].kind == added[a].kind ==>
          existing[i].sortOrder < added[a].sortOrder)
    && (forall a, b :: 0 <= a < b < |added| && added[a].kind == added[b].kind ==>
          added[a].sortOrder < added[b].sortOrder)
  }

  /** There is room under the largest sort order the column holds: for the first new row of a kind,
      and for all but the last below the top. */
  predicate OrdersFit(existing: seq<Row>, defaults: seq<Default>, made: seq<nat>)
    requires forall a :: 0 <= a < |made| ==> made[a] < |defaults|
  {
    && (forall a :: 0 <= a < |made| ==> NextOrder(existing, defaults[made[a]].kind) <= MAX_SORT_ORDER)
    && (forall a, b :: 0 <= a < b < |made| && defaults[made[a]].kind == defaults[made[b]].kind ==>
          Place(existing, defaults, made[a]) < MAX_SORT_ORDER)
  }

  lemma OrdersAreFreshIff(env: Env, existing: seq<Row>, defaults: seq<Default>)
    requires forall i :: 0 <= i < |existing| ==> existing[i].sortOrder <= MAX_SORT_ORDER
    ensures var p := Seeded(env, existing, defaults, |defaults|);
      && (forall a :: 0 <= a < |p.made| ==> p.made[a] < |defaults|)
      && (OrdersAreFresh(existing, p.added) <==> OrdersFit(existing, defaults, p.made))
  {
    var p := Seeded(env, existing, defaults, |defaults|);
    RowsAreMadeInOrder(env, existing, defaults, |defaults|);
    PlacesAreSpread(existing, defaults, p);
    hide Seeded, NextOrder, Place, MadeFrom, Spread, OrdersFit, OrdersAreFresh;
    if OrdersFit(existing, defaults, p.made) {
      FreshWhenFit(existing, defaults, p);
    }
    if OrdersAreFresh(existing, p.added) {
      FitWhenFresh(existing, defaults, p);
    }
  }

  predicate Spread(existing: seq<Row>, defaults: seq<Default>, made: seq<nat>)
    requires forall a :: 0 <= a < |made| ==> made[a] < |defaults|
  {
    && (forall a :: 0 <= a < |made| ==>
          Place(existing, defaults, made[a]) >= NextOrder(existing, defaults[made[a]].kind))
    && (forall a, b :: 0 <= a < b < |made| && defaults[made[a]].kind == defaults[made[b]].kind ==>
          Place(existing, defaults, made[a]) < Place(existing, defaults, made[b]))
  }

  lemma PlacesAreSpread(existing: seq<Row>, defaults: seq<Default>, p: Progress)
    requires MadeFrom(existing, defaults, |defaults|, p)
    ensures Spread(existing, defaults, p.made)
  {
    hide NextOrder, Place;
    forall a | 0 <= a < |p.made|
      ensures Place(existing, defaults, p.made[a]) >= NextOrder(existing, defaults[p.made[a]].kind)
    {
      PlaceStarts(existing, defaults, p.made[a]);
    }
    forall a, b | 0 <= a < b < |p.made| && defaults[p.made[a]].kind == defaults[p.made[b]].kind
      ensures Place(existing, defaults, p.made[a]) < Place(existing, defaults, p.made[b])
    {
      PlacesGrow(existing, defaults, p.made[a], p.made[b]);
    }
  }

  lemma FreshWhenFit(existing: seq<Row>, defaults: seq<Default>, p: Progress)
    requires MadeFrom(existing, defaults, |defaults|, p) && Spread(existing, defaults, p.made)
    requires OrdersFit(existing, defaults, p.made)
    ensures OrdersAreFresh(existing, p.added)
  {
    hide NextOrder, Place;
    forall a, i | 0 <= a < |p.added| && 0 <= i < |existing| && existing[i].kind == p.added[a].kind
      ensures existing[i].sortOrder < p.added[a].sortOrder
    {
      NextIsPastAll(existing, p.added[a].kind);
    }
    forall a, b | 0 <= a < b < |p.added| && p.added[a].kind == p.added[b].kind
      ensures p.added[a].sortOrder < p.added[b].sortOrder
    {
      NextIsPastAll(existing, p.added[a].kind);
      assert Place(existing, defaults, p.made[a]) < Place(existing, defaults, p.made[b]);
    }
  }

  lemma FitWhenFresh(existing: seq<Row>, defaults: seq<Default>, p: Progress)
    requires forall i :: 0 <= i < |existing| ==> existing[i].sortOrder <= MAX_SORT_ORDER
    requires MadeFrom(existing, defaults, |defaults|, p) && Spread(existing, defaults, p.made)
    requires OrdersAreFresh(existing, p.added)
    ensures OrdersFit(existing, defaults, p.made)
  {
    hide NextOrder, Place;
    forall a | 0 <= a < |p.made| ensures NextOrder(existing, defaults[p.made[a]].kind) <= MAX_SORT_ORDER {
      NextIsPastAll(existing, p.added[a].kind);
    }
    forall a, b | 0 <= a < b < |p.made| && defaults[p.made[a]].kind == defaults[p.made[b]].kind
      ensures Place(existing, defaults, p.made[a]) < MAX_SORT_ORDER
    {
      assert p.added[a].sortOrder < p.added[b].sortOrder;
    }
  }

  lemma {:induction false} MissingAreDefaults(env: Env, existing: seq<Row>, defaults: seq<Default>, n: nat)
    requires n <= |defaults|
    ensures forall a :: 0 <= a < |MissingBefore(env, existing, defaults, n)| ==>
      MissingBefore(env, existing, defaults, n)[a] < n
  {
    hide Missing;
    if n > 0 {
      MissingAreDefaults(env, existing, defaults, n - 1);
    }
  }

  /** What a caller can tell before seeding: with no failures around it and every missing default
      fit, the new sort orders come out fresh if and only if there is room for the missing
      defaults' places. */
  lemma OrdersWillBeFreshIff(env: Env, existing: seq<Row>, defaults: seq<Default>)
    requires Calm(env) && MissingFit(env, existing, defaults, |defaults|)
    requires forall i :: 0 <= i < |existing| ==> existing[i].sortOrder <= MAX_SORT_ORDER
    ensures var missing := MissingBefore(env, existing, defaults, |defaults|);
      && (forall a :: 0 <= a < |missing| ==> missing[a] < |defaults|)
      && (OrdersAreFresh(existing, Seeded(env, existing, defaults, |defaults|).added) <==>
            OrdersFit(existing, defaults, missing))
  {
    MissingAreDefaults(env, existing, defaults, |defaults|);
    CalmSeeding(env, existing, defaults, |defaults|);
    hide Seeded, MissingBefore, OrdersAreFresh, OrdersFit, Calm, MissingFit, AllTaken;
    OrdersAreFreshIff(env, existing, defaults);
  }

  lemma PlaceStarts(existing: seq<Row>, defaults: seq<Default>, i: nat)
    requires i < |defaults|
    ensures Place(existing, defaults, i) >= NextOrder(existing, defaults[i].kind)
  {
  }

  // ---------- the table of defaults ----------

  const DEFAULTS: seq<Default> := [
    Default("food", Expense, "utensils", "chart-1"),
    Default("transport", Expense, "bus", "chart-2"),
    Default("shopping", Expense, "shopping-bag", "chart-3"),
    Default("bills", Expense, "receipt", "chart-4"),
    Default("phone_internet", Expense, "smartphone", "chart-5"),
    Default("health", Expense, "heart-pulse", "chart-1"),
    Default("home", Expense, "house", "chart-2"),
    Default("entertainment", Expense, "clapperboard", "chart-3"),
    Default("education", Expense, "graduation-cap", "chart-4"),
    Default("family", Expense, "users", "chart-5"),
    Default("installments", Expense, "credit-card", "chart-1"),
    Default("charity", Expense, "hand-heart", "chart-2"),
    Default("other_expense", Expense, "circle-ellipsis", "chart-3"),
    Default("salary", Income, "banknote", "chart-4"),
    Default("bonus", Income, "wallet", "chart-5"),
    Default("freelance", Income, "laptop", "chart-1"),
    Default("business", Income, "briefcase", "chart-2"),
    Default("investment", Income, "trending-up", "chart-3"),
    Default("gift", Income, "gift", "chart-4"),
    Default("other_income", Income, "circle-ellipsis", "chart-5")]

  /** A key that reads as words: lower-case letters and underscores, starting with a letter. */
  predicate Readable(key: string) {
    && 1 <= |key| <= MAX_NAME_RUNES && 'a' <= key[0] <= 'z'
    && forall i :: 0 <= i < |key| ==> 'a' <= key[i] <= 'z' || key[i] == '_'
  }

  /** An entry that can always be built from its own key. */
  predicate WellMade(d: Default) {
    Readable(d.key) && NormalIcon(d.icon).Ok? && NormalColor(d.color).Ok?
  }

  predicate Lettered(s: string) {
    forall i :: 0 <= i < |s| ==> 'a' <= s[i] <= 'z' || s[i] == '_'
  }

  predicate Framed(t: string) {
    t != "" && !IsSpace(t[0]) && !IsSpace(t[|t| - 1])
  }

  lemma UpperFirstIsFramed(word: string)
    requires word != [] && Lettered(word)
    ensures |UpperFirst(word)| == |word| && Framed(UpperFirst(word))
  {
  }

  lemma {:induction false} TitleIsFramed(s: string)
    requires Lettered(s)
    ensures TitleCase(s) == "" || Framed(TitleCase(s))
    ensures |TitleCase(s)| <= |s|
    ensures s != "" && s[0] != '_' ==> TitleCase(s) != ""
    decreases |s|
  {
    hide IsSpace;
    WordsAreNotEmpty(s);
    if s == [] {
    } else if IsSeparator(s[0]) {
      TitleIsFramed(s[1..]);
    } else {
      var n := WordLength(s);
      var word, rest := s[..n], s[n..];
      assert n > 0;
      UpperFirstIsFramed(word);
      assert Words(s) == [word] + Words(rest);
      assert Words(s)[1..] == Words(rest);
      TitleIsFramed(rest);
      if rest != [] {
        assert IsSeparator(rest[0]) && Words(rest) == Words(rest[1..]);
        TitleIsFramed(rest[1..]);
      }
    }
  }

  lemma ReadableFallsBack(key: string)
    requires Readable(key)
    ensures TrimSpace(TitleCase(key)) == TitleCase(key) && 1 <= |TitleCase(key)| <= MAX_NAME_RUNES
  {
    hide IsSpace;
    TitleIsFramed(key);
    TrimKeeps(TitleCase(key), IsSpace);
  }

  /** For such an entry only the length of a translated name can be in the way. */
  lemma FitsIff(env: Env, d: Default)
    requires WellMade(d)
    ensures Fits(env, d) <==> |NameFor(env, d)| <= MAX_NAME_RUNES
  {
    ReadableFallsBack(d.key);
    if env.namer.Some? {
      var given := env.namer.value("category.default." + d.key);
      TrimLeaves(given);
      TrimKeeps(TrimSpace(given), IsSpace);
    }
  }

  lemma ChartColorIsAccepted(color: string)
    requires IsChartColor(color)
    ensures NormalColor(color).Ok?
  {
    assert color[0] == "chart-"[0] && color[6] == color[|color| - 1];
    TrimKeeps(color, IsSpace);
  }

  lemma IconsAreFramed(i: nat)
    requires i < |ALLOWED_ICONS|
    ensures Framed(ALLOWED_ICONS[i])
  {
  }

  lemma IconIsAccepted(icon: string)
    requires icon in ALLOWED_ICONS
    ensures NormalIcon(icon).Ok?
  {
    var i :| 0 <= i < |ALLOWED_ICONS| && ALLOWED_ICONS[i] == icon;
    IconsAreFramed(i);
    TrimKeeps(icon, IsSpace);
  }

  lemma EarlyKeyIsReadable(i: nat)
    requires i < 10
    ensures Readable(DEFAULTS[i].key)
  {
  }

  lemma LateKeyIsReadable(i: nat)
    requires 10 <= i < |DEFAULTS|
    ensures Readable(DEFAULTS[i].key)
  {
  }

  lemma EntryLooksRight(i: nat)
    requires i < |DEFAULTS|
    ensures DEFAULTS[i].icon in ALLOWED_ICONS && IsChartColor(DEFAULTS[i].color)
  {
  }

  lemma EntryIsWellMade(i: nat)
    requires i < |DEFAULTS|
    ensures WellMade(DEFAULTS[i])
  {
    hide NormalIcon, NormalColor, Readable, IsChartColor;
    if i < 10 {
      EarlyKeyIsReadable(i);
    } else {
      LateKeyIsReadable(i);
    }
    EntryLooksRight(i);
    IconIsAccepted(DEFAULTS[i].icon);
    ChartColorIsAccepted(DEFAULTS[i].color);
  }

  /** For the table as it is, preview and seed agree exactly when no missing default's name is over
      a hundred characters. */
  lemma PreviewOfTheTableAgreesIff(env: Env, existing: seq<Row>)
    requires Calm(env)
    ensures |Seeded(env, existing, DEFAULTS, |DEFAULTS|).added| == |MissingBefore(env, existing, DEFAULTS, |DEFAULTS|)|
      <==> forall i :: 0 <= i < |DEFAULTS| && Missing(env, existing, DEFAULTS, i) ==>
             |NameFor(env, DEFAULTS[i])| <= MAX_NAME_RUNES
  {
    hide Seeded, MissingBefore, Missing, NameFor, Fits, WellMade;
    PreviewAgreesIff(env, existing, DEFAULTS);
    forall i | 0 <= i < |DEFAULTS| ensures Fits(env, DEFAULTS[i]) <==> |NameFor(env, DEFAULTS[i])| <= MAX_NAME_RUNES {
      EntryIsWellMade(i);
      FitsIff(env, DEFAULTS[i]);
    }
  }
}
