/** The CLI session file: sign-in profiles by name, the edits the commands make to
    them, and the store that applies one edit at a time under the file lock. */
module SessionFile {
  import opened Basics

  const SESSION_FILE_VERSION := 1

  /** Seconds before its expiry at which an access token stops counting as fresh. */
  const REFRESH_SKEW := 60

  /** Refresh tokens are opaque; an absent one is the empty string of the source. */
  type RefreshToken = nat

  datatype ProfileToken = ProfileToken(issuer: string, access: string, refresh: Option<RefreshToken>,
    scopes: seq<string>)

  datatype Profile = Profile(url: string, expires: Option<int>, principal: string, token: Option<ProfileToken>)

  type Profiles = map<string, Profile>

  datatype SessionError =
    | FileUnreadable
    | FileTooNew
    | FileNotLocked
    | FileNotSaved(also: Option<SessionError>)
    | NotSignedIn(profile: string, url: string)
    | HostMismatch(profile: string, profileUrl: string, url: string)
    | SessionExpired(profile: string, profileUrl: string)
    | RefreshFailed(profile: string)

  // ---------- the file ----------

  /** What the path holds; a rename replaces it in one step, so it is one cell. */
  datatype Disk = Missing | Unreadable | Stored(version: int, profiles: Profiles)

  function LoadSessionFile(d: Disk): Result<Profiles, SessionError> {
    match d
    case Missing => Ok(map[])
    case Unreadable => Err(FileUnreadable)
    case Stored(version, profiles) =>
      if version > SESSION_FILE_VERSION then Err(FileTooNew)
      else if version < SESSION_FILE_VERSION then Ok(map[])
      else Ok(profiles)
  }

  function SaveSessionFile(profiles: Profiles): Disk {
    Stored(SESSION_FILE_VERSION, profiles)
  }

  // ---------- one profile ----------

  function TrimRightSlash(s: string): string {
    if s != "" && s[|s| - 1] == '/' then TrimRightSlash(s[..|s| - 1]) else s
  }

  predicate SameURL(a: string, b: string) {
    TrimRightSlash(a) == TrimRightSlash(b)
  }

  function RefreshOf(p: Profile): Option<RefreshToken> {
    if p.token.Some? then p.token.value.refresh else None
  }

  function Usable(p: Option<Profile>, name: string, url: string): Option<SessionError> {
    if p.None? || p.value.url == "" then Some(NotSignedIn(name, url))
    else if !SameURL(p.value.url, url) then Some(HostMismatch(name, p.value.url, url))
    else if p.value.token.None? then Some(SessionExpired(name, p.value.url))
    else None
  }

  predicate Fresh(p: Profile, now: int)
    requires p.token.Some?
  {
    if p.expires.None? then p.token.value.refresh.None?
    else now < p.expires.value - REFRESH_SKEW
  }

  // ---------- the refresh exchange ----------

  /** What the issuer's token endpoint answers: a full token set, a rotated refresh token
      inside a response that failed afterwards, a refusal, or no usable answer. */
  datatype Answer =
    | Tokens(access: string, refresh: Option<RefreshToken>, scopes: seq<string>, expires: Option<int>)
    | RotatedOnly(refresh: Option<RefreshToken>)
    | InvalidGrant
    | Outage

  datatype Refreshed = Refreshed(profile: Profile, changed: bool, err: Option<SessionError>)

  function Expired(name: string, p: Profile): Refreshed {
    Refreshed(p.(token := None, expires := None), true, Some(SessionExpired(name, p.url)))
  }

  function Refresh(name: string, p: Profile, answer: Answer): Refreshed
    requires p.token.Some?
  {
    var t := p.token.value;
    if t.refresh.None? then Expired(name, p)
    else match answer
      case Tokens(access, refresh, scopes, expires) =>
        Refreshed(p.(token := Some(t.(access := access, refresh := refresh, scopes := scopes)), expires := expires),
          true, None)
      case RotatedOnly(refresh) =>
        Refreshed(p.(token := Some(t.(refresh := refresh))), true, Some(RefreshFailed(name)))
      case InvalidGrant => Expired(name, p)
      case Outage => Refreshed(p, false, Some(RefreshFailed(name)))
  }

  // ---------- the edits ----------

  datatype Op =
    | Refreshing(name: string, url: string)
    | Logout(name: string)
    | Replace(name: string, profile: Profile)
    | SetPrincipal(name: string, url: string, principal: string)

  /** What the outside world contributes to one edit: the clock, the issuer's answer,
      whether it spends the presented token, and whether a revocation gets through. */
  datatype Reply = Reply(now: int, answer: Answer, spends: bool, revoked: bool)

  /** The request an edit sends to the issuer while it holds the lock. */
  datatype Touch = NoTouch | Exchanging(token: RefreshToken) | Revoking(token: RefreshToken)

  datatype Edit = Edit(profiles: Profiles, changed: bool, err: Option<SessionError>, access: string, touch: Touch)

  function RevokeTouch(p: Profile): Touch {
    if RefreshOf(p).Some? then Revoking(RefreshOf(p).value) else NoTouch
  }

  /** The callback each command hands to the store, given what the world answers. */
  function RunEdit(op: Op, reply: Reply, profiles: Profiles): Edit {
    match op
    case Refreshing(name, url) =>
      if name !in profiles then Edit(profiles, false, Some(NotSignedIn(name, url)), "", NoTouch)
      else
        var cur := profiles[name];
        var refusal := Usable(Some(cur), name, url);
        if refusal.Some? then Edit(profiles, false, refusal, "", NoTouch)
        else if Fresh(cur, reply.now) then Edit(profiles, false, None, cur.token.value.access, NoTouch)
        else
          var next := Refresh(name, cur, reply.answer);
          Edit(profiles[name := next.profile], next.changed, next.err,
               if next.err.None? then next.profile.token.value.access else "",
               if RefreshOf(cur).Some? then Exchanging(RefreshOf(cur).value) else NoTouch)
    case Logout(name) =>
      if name !in profiles then Edit(profiles, false, None, "", NoTouch)
      else Edit(profiles - {name}, true, None, "", RevokeTouch(profiles[name]))
    case Replace(name, p) =>
      Edit(profiles[name := p], true, None, "", if name in profiles then RevokeTouch(profiles[name]) else NoTouch)
    case SetPrincipal(name, url, view) =>
      if name !in profiles || !SameURL(profiles[name].url, url) then Edit(profiles, false, None, "", NoTouch)
      else Edit(profiles[name := profiles[name].(principal := view)], true, None, "", NoTouch)
  }

  // ---------- the store ----------

  /** What one uninterrupted edit leaves on disk. */
  function DiskAfter(d: Disk, fn: Profiles -> Edit, saves: bool): Disk {
    match LoadSessionFile(d)
    case Err(_) => d
    case Ok(ps) => if fn(ps).changed && saves then SaveSessionFile(fn(ps).profiles) else d
  }

  /** The error that edit reports: the file's own, a failed save joined to the callback's
      error, or the callback's alone. */
  function ErrorAfter(d: Disk, fn: Profiles -> Edit, saves: bool): Option<SessionError> {
    match LoadSessionFile(d)
    case Err(e) => Some(e)
    case Ok(ps) => if fn(ps).changed && !saves then Some(FileNotSaved(fn(ps).err)) else fn(ps).err
  }

  // ---------- what the edits come to, field by field ----------

  function Slashes(n: nat): string {
    seq(n, i => '/')
  }

  lemma {:induction false} TrimmedEnd(s: string)
    ensures var t := TrimRightSlash(s);
      && t <= s && s == t + Slashes(|s| - |t|) && (t == "" || t[|t| - 1] != '/')
  {
    if s != "" && s[|s| - 1] == '/' {
      TrimmedEnd(s[..|s| - 1]);
    }
  }

  lemma {:induction false} SlashesTrimAway(stem: string, n: nat)
    ensures TrimRightSlash(stem + Slashes(n)) == TrimRightSlash(stem)
  {
    if n == 0 {
      assert stem + Slashes(n) == stem;
    } else {
      assert (stem + Slashes(n))[..|stem| + n - 1] == stem + Slashes(n - 1);
      SlashesTrimAway(stem, n - 1);
    }
  }

  /** Two urls are one host's if and only if they differ in slashes at their end alone. */
  lemma SameURLIff(a: string, b: string)
    ensures SameURL(a, b) <==> exists stem: string, m: nat, n: nat :: a == stem + Slashes(m) && b == stem + Slashes(n)
  {
    TrimmedEnd(a);
    TrimmedEnd(b);
    if exists stem: string, m: nat, n: nat :: a == stem + Slashes(m) && b == stem + Slashes(n) {
      var stem: string, m: nat, n: nat :| a == stem + Slashes(m) && b == stem + Slashes(n);
      SlashesTrimAway(stem, m);
      SlashesTrimAway(stem, n);
    }
  }

  /** A refresh edit refuses a profile it cannot use, answers a stored token that has more than a
      minute left or can neither expire nor be refreshed, and otherwise asks the issuer. What it
      then answers and stores is the issuer's answer, in the one profile, whose issuer, url and
      principal stay. */
  lemma RefreshEditTells(name: string, url: string, reply: Reply, ps: Profiles)
    ensures var e := RunEdit(Refreshing(name, url), reply, ps);
      if name !in ps || ps[name].url == "" then e == Edit(ps, false, Some(NotSignedIn(name, url)), "", NoTouch)
      else
        var p := ps[name];
        if !SameURL(p.url, url) then e == Edit(ps, false, Some(HostMismatch(name, p.url, url)), "", NoTouch)
        else if p.token.None? then e == Edit(ps, false, Some(SessionExpired(name, p.url)), "", NoTouch)
        else
          var t := p.token.value;
          if (p.expires.Some? && reply.now + 60 < p.expires.value) || (p.expires.None? && t.refresh.None?) then
            e == Edit(ps, false, None, t.access, NoTouch)
          else if t.refresh.None? then
            e == Edit(ps[name := Profile(p.url, None, p.principal, None)], true,
                      Some(SessionExpired(name, p.url)), "", NoTouch)
          else
            e == Exchanged(name, ps, p, t, t.refresh.value, reply.answer)
  {
    if name in ps {
      assert ps[name := ps[name]] == ps;
    }
  }

  /** The four answers of an exchange of profile p's refresh token r. */
  ghost function Exchanged(
    name: string, ps: Profiles, p: Profile, t: ProfileToken, r: RefreshToken, answer: Answer): Edit
  {
    match answer
    case Tokens(access, refresh, scopes, expires) =>
      var stored := Profile(p.url, expires, p.principal, Some(ProfileToken(t.issuer, access, refresh, scopes)));
      Edit(ps[name := stored], true, None, access, Exchanging(r))
    case RotatedOnly(refresh) =>
      var stored := Profile(p.url, p.expires, p.principal, Some(ProfileToken(t.issuer, t.access, refresh, t.scopes)));
      Edit(ps[name := stored], true, Some(RefreshFailed(name)), "", Exchanging(r))
    case InvalidGrant =>
      Edit(ps[name := Profile(p.url, None, p.principal, None)], true,
           Some(SessionExpired(name, p.url)), "", Exchanging(r))
    case Outage => Edit(ps, false, Some(RefreshFailed(name)), "", Exchanging(r))
  }

  /** Of the other edits, each changes exactly the entry it names: a logout drops it, a sign-in
      writes it, and both revoke the refresh token it held; a principal is set on a profile of the
      same host. */
  lemma OtherEditsTell(op: Op, reply: Reply, ps: Profiles)
    requires !op.Refreshing?
    ensures var e := RunEdit(op, reply, ps);
      && e.err.None? && e.access == ""
      && (forall n :: n != op.name ==> (n in e.profiles <==> n in ps) && (n in ps ==> e.profiles[n] == ps[n]))
      && (!e.changed ==> e.profiles == ps)
      && match op
         case Logout(name) => name !in e.profiles && (e.changed <==> name in ps)
         case Replace(name, p) => name in e.profiles && e.profiles[name] == p && e.changed
         case SetPrincipal(name, url, view) =>
           && (e.changed <==> name in ps && SameURL(ps[name].url, url))
           && (e.changed ==> e.profiles[name] == Profile(ps[name].url, ps[name].expires, view, ps[name].token))
    ensures RunEdit(op, reply, ps).touch ==
      if !op.SetPrincipal? && op.name in ps && ps[op.name].token.Some? && ps[op.name].token.value.refresh.Some?
      then Revoking(ps[op.name].token.value.refresh.value) else NoTouch
  {
  }

  /** What an edit finds and leaves on disk, and the error it reports: a file of the first version is
      read and written as it is, a missing or older one reads as empty, and one that cannot be read,
      or is newer, is left alone. */
  lemma EditOnDisk(d: Disk, fn: Profiles -> Edit, saves: bool)
    ensures var after, err := DiskAfter(d, fn, saves), ErrorAfter(d, fn, saves);
      if d.Unreadable? then after == d && err == Some(FileUnreadable)
      else if d.Stored? && d.version > 1 then after == d && err == Some(FileTooNew)
      else
        var e := fn(if d.Stored? && d.version == 1 then d.profiles else map[]);
        if !e.changed then after == d && err == e.err
        else if saves then after == Stored(1, e.profiles) && err == e.err
        else after == d && err == Some(FileNotSaved(e.err))
  {
  }

  /** The access token stored for a usable profile, with more than a minute left or of a kind that can
      neither expire nor be refreshed. */
  ghost predicate AnswersStored(ps: Profiles, name: string, url: string, now: int, access: string) {
    && name in ps && SameURL(ps[name].url, url) && ps[name].token.Some?
    && access == ps[name].token.value.access
    && match ps[name].expires
       case Some(expires) => now + 60 < expires
       case None => ps[name].token.value.refresh.None?
  }

  /** The access token the issuer has just answered, which the file now holds with the rest of the
      answer. */
  ghost predicate AnswersAndStores(ps: Profiles, name: string, url: string, answer: Answer, access: string, d: Disk) {
    && name in ps && SameURL(ps[name].url, url) && ps[name].token.Some? && ps[name].token.value.refresh.Some?
    && answer.Tokens? && access == answer.access
    && var p := ps[name];
    var token := ProfileToken(p.token.value.issuer, answer.access, answer.refresh, answer.scopes);
    d == Stored(1, ps[name := Profile(p.url, answer.expires, p.principal, Some(token))])
  }

  class ProfileStore {
    var disk: Disk
    var locked: bool

    constructor (d: Disk)
      ensures disk == d && !locked
    {
      disk, locked := d, false;
    }

    method Load(name: string) returns (r: Result<Option<Profile>, SessionError>)
      ensures r == match LoadSessionFile(disk)
                   case Err(e) => Err(e)
                   case Ok(ps) => Ok(if name in ps then Some(ps[name]) else None)
    {
      var f := LoadSessionFile(disk);
      if f.Err? {
        return Err(f.error);
      }
      if name !in f.value {
        return Ok(None);
      }
      return Ok(Some(f.value[name]));
    }

    /** Locked read-modify-write. An edit that reports no change leaves the file as it was, and so
        does one that never gets the lock. */
    method EditWith(fn: Profiles -> Edit, locks: bool, saves: bool) returns (err: Option<SessionError>, access: string)
      requires !locked
      modifies this
      ensures !locked
      ensures disk == if locks then DiskAfter(old(disk), fn, saves) else old(disk)
      ensures err == if locks then ErrorAfter(old(disk), fn, saves) else Some(FileNotLocked)
      ensures locks && LoadSessionFile(old(disk)).Ok? ==> access == fn(LoadSessionFile(old(disk)).value).access
    {
      if !locks {
        return Some(FileNotLocked), "";
      }
      locked := true;
      access := "";
      var f := LoadSessionFile(disk);
      if f.Err? {
        locked := false;
        return Some(f.error), "";
      }
      var e := fn(f.value);
      err, access := e.err, e.access;
      if e.changed {
        if saves {
          disk := SaveSessionFile(e.profiles);
        } else {
          err := Some(FileNotSaved(e.err));
        }
      }
      locked := false;
    }

    /** The token source: an unlocked look first, the locked refresh only when that is stale.
        A call that finds a fresh token, or no usable profile, leaves the file alone; every
        other call is exactly one edit. */
    method AccessToken(name: string, url: string, now: int, reply: Reply, locks: bool, saves: bool)
      returns (r: Result<string, SessionError>)
      requires !locked
      modifies this
      ensures !locked
      ensures LoadSessionFile(old(disk)).Err? ==> r == Err(LoadSessionFile(old(disk)).error)
      ensures LoadSessionFile(old(disk)).Ok? ==>
                var ps := LoadSessionFile(old(disk)).value;
                var seen := if name in ps then Some(ps[name]) else None;
                var fn := (q: Profiles) => RunEdit(Refreshing(name, url), reply, q);
                if Usable(seen, name, url).Some? then
                  disk == old(disk) && r == Err(Usable(seen, name, url).value)
                else if Fresh(seen.value, now) then
                  disk == old(disk) && r == Ok(seen.value.token.value.access)
                else if !locks then
                  disk == old(disk) && r == Err(FileNotLocked)
                else
                  && disk == DiskAfter(old(disk), fn, saves)
                  && r == if ErrorAfter(old(disk), fn, saves).Some? then Err(ErrorAfter(old(disk), fn, saves).value)
                          else Ok(RunEdit(Refreshing(name, url), reply, ps).access)
      ensures disk != old(disk) ==> disk.Stored? && disk.version == SESSION_FILE_VERSION
      ensures r.Ok? ==>
                && old(disk).Stored? && old(disk).version == 1
                && var ps := old(disk).profiles;
                || (disk == old(disk) && AnswersStored(ps, name, url, now, r.value))
                || (disk == old(disk) && locks && AnswersStored(ps, name, url, reply.now, r.value))
                || (locks && saves && AnswersAndStores(ps, name, url, reply.answer, r.value, disk))
    {
      var found := Load(name);
      if found.Err? {
        return Err(found.error);
      }
      var refusal := Usable(found.value, name, url);
      if refusal.Some? {
        return Err(refusal.value);
      }
      if Fresh(found.value.value, now) {
        return Ok(found.value.value.token.value.access);
      }
      var fn := (q: Profiles) => RunEdit(Refreshing(name, url), reply, q);
      EditOnDisk(disk, fn, saves);
      RefreshEditTells(name, url, reply, LoadSessionFile(disk).value);
      var err, access := EditWith(fn, locks, saves);
      if err.Some? {
        return Err(err.value);
      }
      return Ok(access);
    }
  }
}
