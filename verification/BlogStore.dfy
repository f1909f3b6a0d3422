/** One blog post as a versioned row: the post's own state changes, the guarded upsert that
    stores it, and the entity tag the REST edge derives from its version. */
module BlogStore {
  import opened Basics
  import opened Decimal
  import opened Text

  /** The version column is a 32-bit integer. */
  const MAX_INT32: int := 0x7FFF_FFFF

  const SECOND := 1_000_000_000

  datatype Status = Draft | Published

  datatype Content = Content(title: string, slug: string, body: string, category: nat)

  /** Times are nanoseconds. */
  datatype Post = Post(content: Content, tags: seq<nat>, status: Status, firstPublished: Option<int>, updated: int,
    version: int)

  datatype PostError = NotFound | Stale(want: int, got: int) | AlreadyExists | Unexpected

  // ---------- the aggregate ----------

  function Publish(p: Post, now: int): Post {
    p.(
      status := Published,
      firstPublished := if p.firstPublished.None? then Some(now) else p.firstPublished,
      updated := now)
  }

  function Unpublish(p: Post, now: int): Post {
    p.(status := Draft, updated := now)
  }

  function Apply(p: Post, target: Status, now: int): Post {
    if target.Published? then Publish(p, now) else Unpublish(p, now)
  }

  /** Keeps the first of each tag, in order. */
  function FirstSeen(ids: seq<nat>): seq<nat> {
    if ids == [] then []
    else
      var before := FirstSeen(ids[..|ids| - 1]);
      if ids[|ids| - 1] in before then before else before + [ids[|ids| - 1]]
  }

  /** The editable fields, with the tags when the call names them. */
  function Revise(p: Post, content: Content, tags: Option<seq<nat>>, now: int): Post {
    p.(content := content, tags := if tags.Some? then FirstSeen(tags.value) else p.tags, updated := now)
  }

  /** The source's loop over a growing result and a set of tags already seen. */
  method Deduplicate(ids: seq<nat>) returns (out: seq<nat>)
    ensures out == FirstSeen(ids)
  {
    var seen: set<nat> := {};
    out := [];
    for i := 0 to |ids|
      invariant out == FirstSeen(ids[..i])
      invariant forall id :: id in seen <==> id in out
    {
      assert ids[..i + 1][..i] == ids[..i];
      if ids[i] !in seen {
        seen := seen + {ids[i]};
        out := out + [ids[i]];
      }
    }
    assert ids[..|ids|] == ids;
  }

  /** A deduplicated tag list names each given tag exactly once, at the place of its first use. */
  lemma {:induction false} FirstSeenIsASet(ids: seq<nat>)
    ensures forall id :: id in FirstSeen(ids) <==> id in ids
    ensures forall i, j :: 0 <= i < j < |FirstSeen(ids)| ==> FirstSeen(ids)[i] != FirstSeen(ids)[j]
  {
    if ids != [] {
      FirstSeenIsASet(ids[..|ids| - 1]);
      assert ids == ids[..|ids| - 1] + [ids[|ids| - 1]];
    }
  }

  // ---------- the row ----------

  /** Whether the row at `version` may be written; 0 guards nothing, and a guard the column
      cannot hold matches no row. */
  predicate VersionGuard(ifVersion: int, version: int) {
    if ifVersion == 0 then true
    else if ifVersion < 0 || ifVersion > MAX_INT32 then false
    else version == ifVersion
  }

  /** Why a statement touched no row. */
  function RefusalError(row: Option<Post>, ifVersion: int): PostError {
    if row.None? then NotFound
    else if ifVersion != 0 then Stale(ifVersion, row.value.version)
    else NotFound
  }

  /** INSERT ... ON CONFLICT DO UPDATE: a missing row is inserted as the post stands, a present
      one takes the post's fields and its own version plus one, when the guard lets it. The
      conflict on the identity, and with it the guard, comes before another post's slug. */
  function SaveRow(row: Option<Post>, p: Post, ifVersion: int, slugTaken: bool): Result<Post, PostError> {
    if row.None? then (if slugTaken then Err(AlreadyExists) else Ok(p))
    else if !VersionGuard(ifVersion, row.value.version) then Err(RefusalError(row, ifVersion))
    else if row.value.version >= MAX_INT32 then Err(Unexpected)
    else if slugTaken then Err(AlreadyExists)
    else Ok(p.(version := row.value.version + 1))
  }

  /** The post a successful save hands back: the loaded version, plus one. */
  function Persisted(p: Post): Post {
    p.(version := p.version + 1)
  }

  class PostTable {
    var row: Option<Post>

    constructor (r: Option<Post>)
      ensures row == r
    {
      row := r;
    }

    method Save(p: Post, ifVersion: int, slugTaken: bool) returns (err: Option<PostError>)
      modifies this
      ensures err == match SaveRow(old(row), p, ifVersion, slugTaken) case Ok(_) => None case Err(e) => Some(e)
      ensures row == match SaveRow(old(row), p, ifVersion, slugTaken) case Ok(r) => Some(r) case Err(_) => old(row)
    {
      if row.None? {
        if slugTaken {
          return Some(AlreadyExists);
        }
        row := Some(p);
        return None;
      }
      if !VersionGuard(ifVersion, row.value.version) {
        return Some(RefusalError(row, ifVersion));
      }
      if row.value.version >= MAX_INT32 {
        return Some(Unexpected);
      }
      if slugTaken {
        return Some(AlreadyExists);
      }
      row := Some(p.(version := row.value.version + 1));
      return None;
    }

    /** A guarded delete: a refused one leaves the row, tags included, as it was. */
    method Delete(ifVersion: int) returns (err: Option<PostError>)
      modifies this
      ensures err.None? <==> old(row).Some? && VersionGuard(ifVersion, old(row).value.version)
      ensures row == if err.None? then None else old(row)
      ensures err.Some? ==> err.value == RefusalError(old(row), ifVersion)
    {
      if row.None? || !VersionGuard(ifVersion, row.value.version) {
        return Some(RefusalError(row, ifVersion));
      }
      row := None;
      return None;
    }
  }

  // ---------- any saves, one after the other ----------

  datatype Saving = Saving(post: Post, ifVersion: int, slugTaken: bool)

  function Outcome(row: Option<Post>, w: Saving): Result<Post, PostError> {
    SaveRow(row, w.post, w.ifVersion, w.slugTaken)
  }

  function RowAfter(row: Option<Post>, saves: seq<Saving>): Option<Post> {
    if saves == [] then row
    else
      var before, last := RowAfter(row, saves[..|saves| - 1]), saves[|saves| - 1];
      if Outcome(before, last).Ok? then Some(Outcome(before, last).value) else before
  }

  predicate Succeeds(row: Option<Post>, saves: seq<Saving>, k: nat)
    requires k < |saves|
  {
    Outcome(RowAfter(row, saves[..k]), saves[k]).Ok?
  }

  function Successes(row: Option<Post>, saves: seq<Saving>): nat {
    if saves == [] then 0
    else Successes(row, saves[..|saves| - 1]) + if Succeeds(row, saves, |saves| - 1) then 1 else 0
  }

  /** Whatever is saved over a row and under whatever guards, its version counts the saves that
      succeeded. */
  lemma {:induction false} VersionCountsSaves(row: Post, saves: seq<Saving>)
    ensures var after := RowAfter(Some(row), saves);
      after.Some? && after.value.version == row.version + Successes(Some(row), saves)
  {
    if saves != [] {
      VersionCountsSaves(row, saves[..|saves| - 1]);
    }
  }

  lemma {:induction false} SuccessesGrow(row: Option<Post>, saves: seq<Saving>, k: nat)
    requires k <= |saves|
    ensures Successes(row, saves[..k]) <= Successes(row, saves)
  {
    if k < |saves| {
      SuccessesGrow(row, saves[..|saves| - 1], k);
      assert saves[..|saves| - 1][..k] == saves[..k];
    } else {
      assert saves[..k] == saves;
    }
  }

  /** Of all the conditional saves that name one version, at most one succeeds, even among
      unconditional ones. */
  lemma OneOfTwoSavesFails(row: Post, saves: seq<Saving>, i: nat, j: nat)
    requires i < j < |saves| && saves[i].ifVersion == saves[j].ifVersion != 0
    requires Succeeds(Some(row), saves, i)
    ensures !Succeeds(Some(row), saves, j)
  {
    var upTo := saves[..i + 1];
    assert upTo[..i] == saves[..i] && saves[..j][..i + 1] == upTo;
    VersionCountsSaves(row, saves[..i]);
    VersionCountsSaves(row, upTo);
    VersionCountsSaves(row, saves[..j]);
    SuccessesGrow(Some(row), saves[..j], i + 1);
  }

  /** The version a caller is told after a save is the stored one exactly when the row was
      there and still at the version the caller loaded. A save racing a delete, or an update
      whose guard ran ahead of its load, reports a version the row does not have. */
  lemma ReportedVersionIsStoredIff(row: Option<Post>, loaded: Post, ifVersion: int)
    requires SaveRow(row, loaded, ifVersion, false).Ok?
    ensures Persisted(loaded).version == SaveRow(row, loaded, ifVersion, false).value.version
            <==> row.Some? && row.value.version == loaded.version
  {
  }

  // ---------- the entity tag ----------

  datatype EdgeError = PreconditionRequired | BadRequest

  function EtagFor(version: int): string {
    "W/\"" + PrintInt(version) + "\""
  }

  predicate IsQuote(c: char) {
    c == '"'
  }

  function IfMatchVersion(header: string): Result<int, EdgeError> {
    var tag := TrimSpace(header);
    if tag == "" then Err(PreconditionRequired)
    else
      var version := Atoi(Trim(TrimPrefix(tag, "W/"), IsQuote));
      if version.None? || version.value < 1 || version.value > MAX_INT32 then Err(BadRequest)
      else Ok(version.value)
  }

  /** Reading an entity tag back gives its version, for exactly the versions a row can have. */
  lemma IfMatchInvertsEtag(version: int)
    ensures IfMatchVersion(EtagFor(version)) == Ok(version) <==> 1 <= version <= MAX_INT32
    ensures IfMatchVersion(EtagFor(version)) == (if 1 <= version <= MAX_INT32 then Ok(version) else Err(BadRequest))
  {
    var digits := PrintInt(version);
    IntReadsBack(version);
    hide PrintNat, PrintInt, Atoi;
    var tag := EtagFor(version);
    TrimKeeps(tag, IsSpace);
    assert TrimPrefix(tag, "W/") == "\"" + digits + "\"";
    TrimUnwraps("\"", digits, "\"", IsQuote);
  }

  /** A tag as clients write it: weak or not, quoted or not. */
  function TagText(weak: bool, quoted: bool, version: int): string {
    (if weak then "W/" else "") + if quoted then "\"" + PrintInt(version) + "\"" else PrintInt(version)
  }

  lemma EtagIsWeakAndQuoted(version: int)
    ensures EtagFor(version) == TagText(true, true, version)
  {
    assert "W/\"" == "W/" + "\"";
  }

  /** Every form of a tag, with any space around it, is read as the version it shows, for exactly the
      versions a row can have. */
  lemma IfMatchReadsEveryForm(left: string, weak: bool, quoted: bool, version: int, right: string)
    requires forall c :: c in left || c in right ==> IsSpace(c)
    ensures IfMatchVersion(left + TagText(weak, quoted, version) + right) ==
      if 1 <= version <= MAX_INT32 then Ok(version) else Err(BadRequest)
  {
    var digits := PrintInt(version);
    IntReadsBack(version);
    hide PrintNat, PrintInt, Atoi;
    var tag := TagText(weak, quoted, version);
    assert tag != "" && !IsSpace(tag[0]) && !IsSpace(tag[|tag| - 1]);
    TrimUnwraps(left, tag, right, IsSpace);
    var inner := if quoted then "\"" + digits + "\"" else digits;
    assert TrimPrefix(tag, "W/") == inner;
    if quoted {
      TrimUnwraps("\"", digits, "\"", IsQuote);
    } else {
      TrimKeeps(digits, IsQuote);
    }
  }

  /** A header is missing exactly when it is nothing but space. */
  lemma IfMatchIsRequired(header: string)
    ensures IfMatchVersion(header) == Err(PreconditionRequired) <==> forall c :: c in header ==> IsSpace(c)
  {
    TrimsAwayIff(header, IsSpace);
  }

  /** An accepted If-Match is never an unconditional write: as a guard it lets through exactly
      the row at the version it names, and it names one that a row can have. */
  lemma AcceptedIfMatchGuards(header: string, rowVersion: int)
    requires IfMatchVersion(header).Ok?
    ensures 1 <= IfMatchVersion(header).value <= MAX_INT32
    ensures VersionGuard(IfMatchVersion(header).value, rowVersion) <==> rowVersion == IfMatchVersion(header).value
    ensures TrimSpace(header) != ""
  {
  }

  /** So a save under an accepted If-Match writes over the very version the header names, and of all
      the saves under headers that name it, among any others, at most one succeeds. */
  lemma AcceptedIfMatchIsHonouredOnce(row: Post, saves: seq<Saving>, i: nat, j: nat, header: string, other: string)
    requires i < j < |saves|
    requires IfMatchVersion(header) == Ok(saves[i].ifVersion) == IfMatchVersion(other)
    requires saves[j].ifVersion == saves[i].ifVersion && Succeeds(Some(row), saves, i)
    ensures row.version + Successes(Some(row), saves[..i]) == saves[i].ifVersion
    ensures !Succeeds(Some(row), saves, j)
  {
    hide IfMatchVersion, VersionGuard, Succeeds, Successes, RowAfter;
    AcceptedIfMatchGuards(header, row.version + Successes(Some(row), saves[..i]));
    GuardHeldOver(row, saves, i);
    OneOfTwoSavesFails(row, saves, i, j);
  }

  lemma GuardHeldOver(row: Post, saves: seq<Saving>, k: nat)
    requires k < |saves| && Succeeds(Some(row), saves, k)
    ensures VersionGuard(saves[k].ifVersion, row.version + Successes(Some(row), saves[..k]))
  {
    hide Successes, VersionGuard;
    VersionCountsSaves(row, saves[..k]);
  }
}
