/** Any number of CLI processes sharing one session file and one issuer. Each process looks
    at the file without the lock, then edits it under the lock, one small step at a time;
    every interleaving of the steps is a trace. */
module SessionProtocol {
  import opened Basics
  import opened SessionFile

  type Pid = nat

  /** What the issuer knows of a refresh token it minted. */
  datatype Status = Live | Spent | Revoked | Lapsed

  /** Not spent by an exchange and not revoked at a client's request. The issuer may still
      let a token lapse on its own, which no client can prevent. */
  predicate Current(st: Status) {
    st.Live? || st.Lapsed?
  }

  type Issuer = map<RefreshToken, Status>

  /** Where a process stands inside the store's edit. */
  datatype Pc =
    | Idle
    | SignedIn(name: string, profile: Profile)
    | Waiting(op: Op)
    | Locked(op: Op)
    | Loaded(op: Op, base: Profiles)
    | Edited(op: Op, reply: Reply, edit: Edit)
    | Closing

  datatype Presentation = Presentation(token: RefreshToken, status: Status, spent: bool)

  datatype Change = Change(op: Op, reply: Reply)

  /** `ran` lists, in lock order, the callbacks whose change is saved or about to be; `origin`
      is what the file held at the start. */
  datatype State = State(
    disk: Disk, issuer: Issuer, holder: Option<Pid>, pcs: map<Pid, Pc>,
    presented: seq<Presentation>, ran: seq<Change>, origin: Profiles)

  datatype Action =
    | LookFresh(pid: Pid, name: string, url: string, now: int)
    | SignIn(pid: Pid, name: string, profile: Profile)
    | GiveUpSignIn(pid: Pid, revoked: bool)
    | Begin(pid: Pid, op: Op)
    | Queue(pid: Pid)
    | StopWaiting(pid: Pid)
    | Acquire(pid: Pid)
    | ReadFile(pid: Pid)
    | RunCallback(pid: Pid, reply: Reply)
    | Save(pid: Pid)
    | FailSave(pid: Pid)
    | Unlock(pid: Pid)
    | Lapse(token: RefreshToken)

  function PcOf(s: State, p: Pid): Pc {
    if p in s.pcs then s.pcs[p] else Idle
  }

  function At(s: State, p: Pid, pc: Pc): State {
    s.(pcs := s.pcs[p := pc])
  }

  /** The profiles a reader finds; an unreadable file shows none and is never replaced. */
  function OnDisk(d: Disk): Profiles {
    if LoadSessionFile(d).Ok? then LoadSessionFile(d).value else map[]
  }

  // ---------- the issuer ----------

  /** Answers an issuer may give when `t` is presented: only a live token is exchanged, a new
      token is one never minted before, and a kept token is not spent. */
  predicate Answers(issuer: Issuer, t: RefreshToken, reply: Reply)
    requires t in issuer
  {
    match reply.answer
    case Tokens(_, refresh, _, _) => issuer[t].Live? && Grants(issuer, t, refresh, reply.spends)
    case RotatedOnly(refresh) => issuer[t].Live? && Grants(issuer, t, refresh, reply.spends)
    case InvalidGrant => !issuer[t].Live?
    case Outage => true
  }

  predicate Grants(issuer: Issuer, t: RefreshToken, refresh: Option<RefreshToken>, spends: bool) {
    refresh.Some? ==> if refresh.value == t then !spends else refresh.value !in issuer
  }

  function Rotate(issuer: Issuer, t: RefreshToken, refresh: Option<RefreshToken>, spends: bool): Issuer {
    var marked := if spends then issuer[t := Spent] else issuer;
    if refresh.Some? && refresh.value != t then marked[refresh.value := Live] else marked
  }

  predicate Spends(touch: Touch, reply: Reply) {
    touch.Exchanging? && reply.spends && (reply.answer.Tokens? || reply.answer.RotatedOnly?)
  }

  /** The edit made the issuer void the refresh token the file still holds. */
  predicate Consumes(touch: Touch, reply: Reply) {
    Spends(touch, reply) || (touch.Revoking? && reply.revoked)
  }

  function IssuerAfter(issuer: Issuer, touch: Touch, reply: Reply): Issuer {
    match touch
    case NoTouch => issuer
    case Revoking(t) => if reply.revoked then issuer[t := Revoked] else issuer
    case Exchanging(t) =>
      match reply.answer
      case Tokens(_, refresh, _, _) => Rotate(issuer, t, refresh, reply.spends)
      case RotatedOnly(refresh) => Rotate(issuer, t, refresh, reply.spends)
      case _ => issuer
  }

  // ---------- the steps ----------

  predicate InLock(pc: Pc) {
    pc.Locked? || pc.Loaded? || pc.Edited? || pc.Closing?
  }

  predicate Enabled(s: State, a: Action) {
    match a
    case LookFresh(p, _, _, _) => PcOf(s, p).Idle?
    // The browser round trip mints a token no one has seen, or none.
    case SignIn(p, _, profile) => PcOf(s, p).Idle?
      && (RefreshOf(profile).Some? ==> RefreshOf(profile).value !in s.issuer)
    case GiveUpSignIn(p, _) => PcOf(s, p).SignedIn?
    case Begin(p, op) => PcOf(s, p).Idle? && (op.Logout? || op.SetPrincipal?)
    case Queue(p) => PcOf(s, p).SignedIn?
    case StopWaiting(p) => PcOf(s, p).Waiting?
    case Acquire(p) => PcOf(s, p).Waiting? && s.holder.None?
    case ReadFile(p) => PcOf(s, p).Locked?
    case RunCallback(p, reply) =>
      && PcOf(s, p).Loaded?
      && var touch := RunEdit(PcOf(s, p).op, reply, PcOf(s, p).base).touch;
      (touch.Exchanging? ==> touch.token in s.issuer && Answers(s.issuer, touch.token, reply))
    case Save(p) => PcOf(s, p).Edited? && PcOf(s, p).edit.changed
    case FailSave(p) => PcOf(s, p).Edited? && PcOf(s, p).edit.changed
    case Unlock(p) => PcOf(s, p).Closing? || (PcOf(s, p).Edited? && !PcOf(s, p).edit.changed)
    case Lapse(t) => t in s.issuer && s.issuer[t].Live?
  }

  function Next(s: State, a: Action): State
    requires Enabled(s, a)
  {
    match a
    case LookFresh(p, name, url, now) =>
      var ps := OnDisk(s.disk);
      var seen := if name in ps then Some(ps[name]) else None;
      if LoadSessionFile(s.disk).Err? || Usable(seen, name, url).Some? || Fresh(seen.value, now) then s
      else At(s, p, Waiting(Refreshing(name, url)))
    case SignIn(p, name, profile) =>
      At(s, p, SignedIn(name, profile)).(
        issuer := if RefreshOf(profile).Some? then s.issuer[RefreshOf(profile).value := Live] else s.issuer)
    case GiveUpSignIn(p, revoked) =>
      var t := RefreshOf(PcOf(s, p).profile);
      At(s, p, Idle).(issuer := if t.Some? && revoked then s.issuer[t.value := Revoked] else s.issuer)
    case Begin(p, op) => At(s, p, Waiting(op))
    case Queue(p) => At(s, p, Waiting(Replace(PcOf(s, p).name, PcOf(s, p).profile)))
    case StopWaiting(p) => At(s, p, Idle)
    case Acquire(p) => At(s, p, Locked(PcOf(s, p).op)).(holder := Some(p))
    case ReadFile(p) =>
      var f := LoadSessionFile(s.disk);
      At(s, p, if f.Ok? then Loaded(PcOf(s, p).op, f.value) else Closing)
    case RunCallback(p, reply) =>
      var op := PcOf(s, p).op;
      var e := RunEdit(op, reply, PcOf(s, p).base);
      At(s, p, Edited(op, reply, e)).(
        issuer := IssuerAfter(s.issuer, e.touch, reply),
        presented :=
          if e.touch.Exchanging? then
            s.presented + [Presentation(e.touch.token, s.issuer[e.touch.token], Spends(e.touch, reply))]
          else s.presented,
        ran := if e.changed then s.ran + [Change(op, reply)] else s.ran)
    case Save(p) => At(s, p, Closing).(disk := SaveSessionFile(PcOf(s, p).edit.profiles))
    case FailSave(p) => At(s, p, Closing).(ran := if s.ran == [] then [] else s.ran[..|s.ran| - 1])
    case Unlock(p) => At(s, p, Idle).(holder := None)
    case Lapse(t) => s.(issuer := s.issuer[t := Lapsed])
  }

  ghost predicate Trace(s: State, actions: seq<Action>)
    decreases |actions|
  {
    actions == [] || (Enabled(s, actions[0]) && Trace(Next(s, actions[0]), actions[1..]))
  }

  ghost function After(s: State, actions: seq<Action>): State
    requires Trace(s, actions)
    decreases |actions|
  {
    if actions == [] then s else After(Next(s, actions[0]), actions[1..])
  }

  /** No save fails right after the issuer voided the token the file still holds. */
  ghost predicate SavesWhatItSpends(s: State, actions: seq<Action>)
    requires Trace(s, actions)
    decreases |actions|
  {
    actions != [] ==>
      && (actions[0].FailSave? ==> !Consumes(PcOf(s, actions[0].pid).edit.touch, PcOf(s, actions[0].pid).reply))
      && SavesWhatItSpends(Next(s, actions[0]), actions[1..])
  }

  // ---------- what every step keeps ----------

  /** Every stored refresh token is current, and no two profiles store the same one. */
  ghost predicate WellStored(ps: Profiles, issuer: Issuer) {
    && (forall n :: n in ps && RefreshOf(ps[n]).Some? ==>
         RefreshOf(ps[n]).value in issuer && Current(issuer[RefreshOf(ps[n]).value]))
    && (forall m, n :: m in ps && n in ps && m != n && RefreshOf(ps[m]).Some? ==> RefreshOf(ps[m]) != RefreshOf(ps[n]))
  }

  ghost predicate Absent(t: RefreshToken, ps: Profiles) {
    forall n :: n in ps ==> RefreshOf(ps[n]) != Some(t)
  }

  /** The token of a sign-in that has not reached the file yet. */
  function Held(pc: Pc): Option<RefreshToken> {
    match pc
    case SignedIn(_, profile) => RefreshOf(profile)
    case Waiting(op) => if op.Replace? then RefreshOf(op.profile) else None
    case Locked(op) => if op.Replace? then RefreshOf(op.profile) else None
    case Loaded(op, _) => if op.Replace? then RefreshOf(op.profile) else None
    case _ => None
  }

  function Replay(origin: Profiles, changes: seq<Change>): Profiles {
    if changes == [] then origin
    else
      var last := changes[|changes| - 1];
      RunEdit(last.op, last.reply, Replay(origin, changes[..|changes| - 1])).profiles
  }

  ghost predicate LockInv(s: State) {
    && (s.holder.Some? ==> InLock(PcOf(s, s.holder.value)))
    && (forall p :: p in s.pcs && InLock(s.pcs[p]) ==> s.holder == Some(p))
  }

  predicate Unsaved(pc: Pc) {
    pc.Edited? && pc.edit.changed
  }

  /** The process inside the lock, if any, is about to save a change. */
  predicate SavePending(s: State) {
    s.holder.Some? && Unsaved(PcOf(s, s.holder.value))
  }

  /** The profiles the file will hold once the pending save, if any, is done. */
  function Settled(s: State): Profiles {
    if SavePending(s) then PcOf(s, s.holder.value).edit.profiles else OnDisk(s.disk)
  }

  ghost predicate HolderInv(s: State, pc: Pc) {
    && (pc.Loaded? ==> LoadSessionFile(s.disk) == Ok(pc.base))
    && (pc.Edited? ==> LoadSessionFile(s.disk).Ok? && pc.edit == RunEdit(pc.op, pc.reply, OnDisk(s.disk)))
  }

  ghost predicate HeldInv(pcs: map<Pid, Pc>, issuer: Issuer, settled: Profiles, onDisk: Profiles) {
    && (forall p :: p in pcs && Held(pcs[p]).Some? ==>
          var t := Held(pcs[p]).value;
          t in issuer && Current(issuer[t]) && Absent(t, settled) && Absent(t, onDisk))
    && (forall p, q :: p in pcs && q in pcs && p != q && Held(pcs[p]).Some? ==> Held(pcs[p]) != Held(pcs[q]))
  }

  /** While a change waits to be saved, the old file is as good as before, except for the one
      token the change voided. */
  ghost predicate StaleInv(ps: Profiles, issuer: Issuer, touch: Touch, reply: Reply) {
    && (forall n :: n in ps && RefreshOf(ps[n]).Some? ==> RefreshOf(ps[n]).value in issuer)
    && (forall m, n :: m in ps && n in ps && m != n && RefreshOf(ps[m]).Some? ==> RefreshOf(ps[m]) != RefreshOf(ps[n]))
    && (forall n ::
          n in ps && RefreshOf(ps[n]).Some? && !(Consumes(touch, reply) && touch.token == RefreshOf(ps[n]).value) ==>
          Current(issuer[RefreshOf(ps[n]).value]))
    && (Consumes(touch, reply) ==>
         && touch.token in issuer && !Current(issuer[touch.token])
         && exists n :: n in ps && RefreshOf(ps[n]) == Some(touch.token))
  }

  ghost predicate PendingInv(s: State) {
    SavePending(s) ==>
      var pc := PcOf(s, s.holder.value);
      StaleInv(OnDisk(s.disk), s.issuer, pc.edit.touch, pc.reply)
  }

  /** Each logged change did change the table it ran on. */
  ghost predicate AllChange(origin: Profiles, changes: seq<Change>) {
    forall k :: 0 <= k < |changes| ==> RunEdit(changes[k].op, changes[k].reply, Replay(origin, changes[..k])).changed
  }

  /** The logged changes that have reached the file: all but the one waiting to be saved. */
  function SavedChanges(s: State): seq<Change> {
    if SavePending(s) && s.ran != [] then s.ran[..|s.ran| - 1] else s.ran
  }

  ghost predicate LogInv(s: State) {
    && AllChange(s.origin, s.ran)
    && (LoadSessionFile(s.disk).Err? ==> s.ran == [])
    && (LoadSessionFile(s.disk).Ok? ==> OnDisk(s.disk) == Replay(s.origin, SavedChanges(s)))
    && (SavePending(s) ==>
          var pc := PcOf(s, s.holder.value);
          s.ran != [] && s.ran[|s.ran| - 1] == Change(pc.op, pc.reply))
  }

  ghost predicate PresentedInv(presented: seq<Presentation>, issuer: Issuer) {
    && (forall i :: 0 <= i < |presented| ==>
          && Current(presented[i].status)
          && presented[i].token in issuer
          && (presented[i].spent ==> issuer[presented[i].token] == Spent))
    && (forall i, j :: 0 <= i < j < |presented| && presented[i].spent ==> presented[j].token != presented[i].token)
  }

  /** The lock, the file and the log: nothing here depends on the issuer, or on a save working. */
  ghost predicate FileInv(s: State) {
    && LockInv(s)
    && (forall p :: p in s.pcs ==> HolderInv(s, s.pcs[p]))
    && LogInv(s)
  }

  ghost predicate TokenInv(s: State) {
    && WellStored(Settled(s), s.issuer)
    && HeldInv(s.pcs, s.issuer, Settled(s), OnDisk(s.disk))
    && PendingInv(s)
    && PresentedInv(s.presented, s.issuer)
  }

  ghost predicate Inv(s: State) {
    FileInv(s) && TokenInv(s)
  }

  ghost predicate Init(s: State) {
    && s.holder.None? && (forall p :: p in s.pcs ==> s.pcs[p].Idle?) && s.presented == [] && s.ran == []
    && s.origin == OnDisk(s.disk)
    && WellStored(s.origin, s.issuer)
  }

  // ---------- one callback ----------

  /** Storing one profile keeps the table well stored when its token is current and new to
      the other profiles, and theirs keep their status. */
  lemma StoringKeeps(ps: Profiles, name: string, p: Profile, issuer: Issuer, after: Issuer)
    requires WellStored(ps, issuer)
    requires forall n :: n in ps && n != name && RefreshOf(ps[n]).Some? ==>
               RefreshOf(ps[n]).value in after && after[RefreshOf(ps[n]).value] == issuer[RefreshOf(ps[n]).value]
    requires RefreshOf(p).Some? ==> RefreshOf(p).value in after && Current(after[RefreshOf(p).value])
    requires RefreshOf(p).Some? ==> forall n :: n in ps && n != name ==> RefreshOf(ps[n]) != RefreshOf(p)
    ensures WellStored(ps[name := p], after)
  {
  }

  ghost predicate Legal(op: Op, reply: Reply, ps: Profiles, issuer: Issuer) {
    && (var touch := RunEdit(op, reply, ps).touch; touch.Exchanging? ==>
         touch.token in issuer && Answers(issuer, touch.token, reply))
    && (op.Replace? && RefreshOf(op.profile).Some? ==>
          Absent(RefreshOf(op.profile).value, ps) && RefreshOf(op.profile).value in issuer
            && Current(issuer[RefreshOf(op.profile).value]))
  }

  /** A token the old table did not hold is neither touched nor taken up, unless it is the one
      a sign-in brings; a spent token stays spent. */
  ghost predicate CallbackSpares(op: Op, e: Edit, ps: Profiles, issuer: Issuer, after: Issuer) {
    && (forall t :: t in issuer ==> t in after)
    && (forall t :: t in issuer && Absent(t, ps) ==> after[t] == issuer[t])
    && (forall t :: t in issuer && issuer[t].Spent? ==> after[t].Spent?)
    && (forall t :: t in issuer && Absent(t, ps) && !(op.Replace? && RefreshOf(op.profile) == Some(t)) ==>
         Absent(t, e.profiles))
  }

  /** What a callback leaves: a table well stored at the issuer it leaves behind, and an old
      table that is still good but for the one token the callback voided. */
  ghost predicate CallbackLeaves(op: Op, reply: Reply, ps: Profiles, issuer: Issuer) {
    var e := RunEdit(op, reply, ps);
    var after := IssuerAfter(issuer, e.touch, reply);
    && WellStored(if e.changed then e.profiles else ps, after)
    && CallbackSpares(op, e, ps, issuer, after)
    && (e.changed ==> StaleInv(ps, after, e.touch, reply))
  }

  lemma RefreshStores(op: Op, reply: Reply, ps: Profiles, issuer: Issuer)
    requires op.Refreshing? && WellStored(ps, issuer) && Legal(op, reply, ps, issuer)
    requires RunEdit(op, reply, ps).changed
    ensures WellStored(RunEdit(op, reply, ps).profiles, IssuerAfter(issuer, RunEdit(op, reply, ps).touch, reply))
  {
    hide Fresh, SameURL;
    var e := RunEdit(op, reply, ps);
    assert e.touch.Exchanging? ==> e.touch.token == RefreshOf(ps[op.name]).value;
    StoringKeeps(ps, op.name, e.profiles[op.name], issuer, IssuerAfter(issuer, e.touch, reply));
  }

  lemma RefreshSpares(op: Op, reply: Reply, ps: Profiles, issuer: Issuer)
    requires op.Refreshing? && WellStored(ps, issuer) && Legal(op, reply, ps, issuer)
    ensures CallbackSpares(op, RunEdit(op, reply, ps), ps, issuer,
      IssuerAfter(issuer, RunEdit(op, reply, ps).touch, reply))
  {
    hide Fresh, SameURL;
    var e := RunEdit(op, reply, ps);
    assert e.touch.Exchanging? ==> op.name in ps && RefreshOf(ps[op.name]) == Some(e.touch.token);
  }

  lemma RefreshLeaves(op: Op, reply: Reply, ps: Profiles, issuer: Issuer)
    requires op.Refreshing? && WellStored(ps, issuer) && Legal(op, reply, ps, issuer)
    ensures CallbackLeaves(op, reply, ps, issuer)
  {
    hide CallbackSpares, WellStored, StaleInv, SameURL, Fresh;
    RefreshSpares(op, reply, ps, issuer);
    if RunEdit(op, reply, ps).changed {
      RefreshStores(op, reply, ps, issuer);
      RefreshStales(op, reply, ps, issuer);
    }
  }

  lemma RefreshStales(op: Op, reply: Reply, ps: Profiles, issuer: Issuer)
    requires op.Refreshing? && WellStored(ps, issuer) && Legal(op, reply, ps, issuer)
    requires RunEdit(op, reply, ps).changed
    ensures StaleInv(ps, IssuerAfter(issuer, RunEdit(op, reply, ps).touch, reply), RunEdit(op, reply, ps).touch, reply)
  {
    hide Usable, Fresh, SameURL;
    var e := RunEdit(op, reply, ps);
    assert e.touch.Exchanging? ==> RefreshOf(ps[op.name]) == Some(e.touch.token);
  }

  lemma LogoutLeaves(op: Op, reply: Reply, ps: Profiles, issuer: Issuer)
    requires op.Logout? && WellStored(ps, issuer) && Legal(op, reply, ps, issuer)
    ensures CallbackLeaves(op, reply, ps, issuer)
  {
  }

  lemma ReplaceLeaves(op: Op, reply: Reply, ps: Profiles, issuer: Issuer)
    requires op.Replace? && WellStored(ps, issuer) && Legal(op, reply, ps, issuer)
    ensures CallbackLeaves(op, reply, ps, issuer)
  {
    var e := RunEdit(op, reply, ps);
    StoringKeeps(ps, op.name, op.profile, issuer, IssuerAfter(issuer, e.touch, reply));
  }

  lemma SetPrincipalLeaves(op: Op, reply: Reply, ps: Profiles, issuer: Issuer)
    requires op.SetPrincipal? && WellStored(ps, issuer)
    ensures CallbackLeaves(op, reply, ps, issuer)
  {
    hide SameURL;
    var e := RunEdit(op, reply, ps);
    if e.changed {
      assert RefreshOf(e.profiles[op.name]) == RefreshOf(ps[op.name]);
      StoringKeeps(ps, op.name, e.profiles[op.name], issuer, issuer);
    }
  }

  lemma CallbackKeeps(op: Op, reply: Reply, ps: Profiles, issuer: Issuer)
    requires WellStored(ps, issuer) && Legal(op, reply, ps, issuer)
    ensures CallbackLeaves(op, reply, ps, issuer)
  {
    hide CallbackLeaves, WellStored, Legal;
    match op
    case Refreshing(_, _) => RefreshLeaves(op, reply, ps, issuer);
    case Logout(_) => LogoutLeaves(op, reply, ps, issuer);
    case Replace(_, _) => ReplaceLeaves(op, reply, ps, issuer);
    case SetPrincipal(_, _, _) => SetPrincipalLeaves(op, reply, ps, issuer);
  }

  // ---------- one step ----------

  /** One token changing status at the issuer, seen by each part of the invariant. */
  lemma MarkStored(ps: Profiles, issuer: Issuer, t: RefreshToken, st: Status)
    requires WellStored(ps, issuer) && (Current(st) || Absent(t, ps))
    ensures WellStored(ps, issuer[t := st])
  {
  }

  lemma MarkStale(ps: Profiles, issuer: Issuer, touch: Touch, reply: Reply, t: RefreshToken, st: Status)
    requires StaleInv(ps, issuer, touch, reply)
    requires t in issuer ==> (Current(issuer[t]) && Current(st)) || Absent(t, ps)
    ensures StaleInv(ps, issuer[t := st], touch, reply)
  {
  }

  lemma MarkPresented(presented: seq<Presentation>, issuer: Issuer, t: RefreshToken, st: Status)
    requires PresentedInv(presented, issuer) && (t in issuer ==> !issuer[t].Spent?)
    ensures PresentedInv(presented, issuer[t := st])
  {
  }

  lemma MarkHeld(pcs: map<Pid, Pc>, issuer: Issuer, settled: Profiles, onDisk: Profiles, t: RefreshToken, st: Status)
    requires HeldInv(pcs, issuer, settled, onDisk)
    requires Current(st) || forall p :: p in pcs ==> Held(pcs[p]) != Some(t)
    ensures HeldInv(pcs, issuer[t := st], settled, onDisk)
  {
  }

  /** The sign-in token a process lets go of is no one else's. */
  lemma DropHeld(pcs: map<Pid, Pc>, p: Pid, pc: Pc, issuer: Issuer, settled: Profiles, onDisk: Profiles)
    requires HeldInv(pcs, issuer, settled, onDisk) && p in pcs && Held(pc).None?
    ensures HeldInv(pcs[p := pc], issuer, settled, onDisk)
    ensures Held(pcs[p]).Some? ==>
              && Absent(Held(pcs[p]).value, settled) && Absent(Held(pcs[p]).value, onDisk)
              && Held(pcs[p]).value in issuer && Current(issuer[Held(pcs[p]).value])
              && forall q :: q in pcs && q != p ==> Held(pcs[q]) != Held(pcs[p])
  {
  }

  lemma KeepHeld(pcs: map<Pid, Pc>, p: Pid, pc: Pc, issuer: Issuer, settled: Profiles, onDisk: Profiles)
    requires HeldInv(pcs, issuer, settled, onDisk) && p in pcs && Held(pc) == Held(pcs[p])
    ensures HeldInv(pcs[p := pc], issuer, settled, onDisk)
  {
    assert forall q :: q in pcs ==> Held(pcs[p := pc][q]) == Held(pcs[q]);
  }

  /** A token no one has seen before is neither stored nor held by anyone else. */
  lemma TakeUpHeld(pcs: map<Pid, Pc>, p: Pid, pc: Pc, issuer: Issuer, settled: Profiles, onDisk: Profiles)
    requires HeldInv(pcs, issuer, settled, onDisk)
    requires p in pcs ==> Held(pcs[p]).None?
    requires Held(pc).Some? ==>
               && Held(pc).value in issuer && Current(issuer[Held(pc).value])
               && Absent(Held(pc).value, settled) && Absent(Held(pc).value, onDisk)
               && forall q :: q in pcs ==> Held(pcs[q]) != Held(pc)
    ensures HeldInv(pcs[p := pc], issuer, settled, onDisk)
  {
  }

  lemma NewTokenIsAbsent(ps: Profiles, issuer: Issuer, t: RefreshToken)
    requires t !in issuer
    requires forall n :: n in ps && RefreshOf(ps[n]).Some? ==> RefreshOf(ps[n]).value in issuer
    ensures Absent(t, ps)
  {
  }

  lemma DiskTokensAreKnown(s: State, t: RefreshToken)
    requires Inv(s) && t !in s.issuer
    ensures Absent(t, Settled(s)) && Absent(t, OnDisk(s.disk)) && forall q :: q in s.pcs ==> Held(s.pcs[q]) != Some(t)
  {
    hide AllChange, PresentedInv, RunEdit;
    NewTokenIsAbsent(Settled(s), s.issuer, t);
    if SavePending(s) {
      var pc := PcOf(s, s.holder.value);
      assert StaleInv(OnDisk(s.disk), s.issuer, pc.edit.touch, pc.reply);
    }
    NewTokenIsAbsent(OnDisk(s.disk), s.issuer, t);
  }

  /** The parts of the invariant that speak of the file and the log survive a step that
      changes one token's status outside the file. */
  lemma MarkKeepsPending(s: State, s': State, t: RefreshToken, st: Status)
    requires Inv(s)
    requires s'.disk == s.disk && s'.holder == s.holder && SavePending(s') == SavePending(s)
    requires SavePending(s) ==> PcOf(s', s.holder.value) == PcOf(s, s.holder.value)
    requires s'.issuer == s.issuer[t := st]
    requires t in s.issuer ==> (Current(s.issuer[t]) && Current(st)) || Absent(t, OnDisk(s.disk))
    ensures PendingInv(s')
  {
    hide AllChange, PresentedInv, HeldInv, WellStored, StaleInv, RunEdit;
    if SavePending(s) {
      var pc := PcOf(s, s.holder.value);
      MarkStale(OnDisk(s.disk), s.issuer, pc.edit.touch, pc.reply, t, st);
    }
  }

  /** A move of one process that the holder's pending change does not notice. */
  ghost predicate Unnoticed(s: State, s': State) {
    && s'.disk == s.disk && s'.ran == s.ran && s'.origin == s.origin
    && SavePending(s') == SavePending(s)
    && (SavePending(s) ==> s'.holder == s.holder && PcOf(s', s.holder.value) == PcOf(s, s.holder.value))
  }

  lemma UnnoticedKeepsLog(s: State, s': State)
    requires Unnoticed(s, s')
    ensures LogInv(s) ==> LogInv(s')
    ensures Settled(s') == Settled(s)
    ensures PendingInv(s) && s'.issuer == s.issuer ==> PendingInv(s')
  {
    hide AllChange, StaleInv, RunEdit;
  }

  lemma MoveKeepsHolders(s: State, p: Pid, pc: Pc, s': State)
    requires forall q :: q in s.pcs ==> HolderInv(s, s.pcs[q])
    requires s'.pcs == s.pcs[p := pc] && s'.disk == s.disk && HolderInv(s, pc)
    ensures forall q :: q in s'.pcs ==> HolderInv(s', s'.pcs[q])
  {
    hide RunEdit;
  }

  // ---------- one step: the file ----------

  /** A step of one process that does not touch the file. */
  lemma FileMoves(s: State, p: Pid, pc: Pc, s': State)
    requires FileInv(s) && s'.pcs == s.pcs[p := pc] && LockInv(s') && Unnoticed(s, s') && HolderInv(s, pc)
    ensures FileInv(s')
  {
    hide AllChange, RunEdit, HolderInv, LockInv, LogInv;
    MoveKeepsHolders(s, p, pc, s');
    UnnoticedKeepsLog(s, s');
  }

  lemma FileMoveKeeps(s: State, a: Action)
    requires FileInv(s) && Enabled(s, a)
    requires !a.RunCallback? && !a.Save? && !a.FailSave? && !a.Lapse?
    ensures LockInv(Next(s, a)) && Unnoticed(s, Next(s, a)) && FileInv(Next(s, a))
  {
    hide AllChange, RunEdit, LogInv;
    var s' := Next(s, a);
    assert a.ReadFile? || a.Unlock? ==> s.holder == Some(a.pid);
    assert LockInv(s') && Unnoticed(s, s');
    if s' != s {
      FileMoves(s, a.pid, s'.pcs[a.pid], s');
    }
  }

  lemma FileCallbackKeeps(s: State, a: Action)
    requires FileInv(s) && a.RunCallback? && Enabled(s, a)
    ensures FileInv(Next(s, a))
  {
    hide AllChange, RunEdit, IssuerAfter, Replay;
    var s' := Next(s, a);
    var op, base := s.pcs[a.pid].op, s.pcs[a.pid].base;
    assert s.holder == Some(a.pid) && base == OnDisk(s.disk);
    var e := RunEdit(op, a.reply, base);
    assert s'.pcs == s.pcs[a.pid := Edited(op, a.reply, e)];
    if e.changed {
      LogGrows(s.origin, s.ran, Change(op, a.reply));
      assert s'.ran[..|s'.ran| - 1] == s.ran;
    }
    MoveKeepsHolders(s, a.pid, s'.pcs[a.pid], s');
    assert LockInv(s');
  }

  lemma FileSaveKeeps(s: State, a: Action)
    requires FileInv(s) && a.Save? && Enabled(s, a)
    ensures FileInv(Next(s, a))
  {
    hide AllChange, RunEdit;
    var s' := Next(s, a);
    assert s.holder == Some(a.pid);
    assert LockInv(s');
    assert forall q :: q in s'.pcs && q != a.pid ==> !InLock(s'.pcs[q]);
    assert s'.ran == s.ran && LogInv(s') by { SavedIsReplayed(s); }
  }

  lemma FileFailSaveKeeps(s: State, a: Action)
    requires FileInv(s) && a.FailSave? && Enabled(s, a)
    ensures FileInv(Next(s, a))
  {
    hide AllChange, RunEdit, Replay;
    var s' := Next(s, a);
    assert s.holder == Some(a.pid) && SavePending(s) && !SavePending(s');
    assert LockInv(s');
    LogShrinks(s.origin, s.ran);
    MoveKeepsHolders(s, a.pid, Closing, s');
  }

  lemma FileLapseKeeps(s: State, a: Action)
    requires FileInv(s) && a.Lapse? && Enabled(s, a)
    ensures FileInv(Next(s, a))
  {
    hide AllChange, RunEdit, HolderInv, Replay;
    UnnoticedKeepsLog(s, Next(s, a));
    HolderSeesTheFile(s, Next(s, a));
  }

  lemma FileStepKeeps(s: State, a: Action)
    requires FileInv(s) && Enabled(s, a)
    ensures FileInv(Next(s, a)) && Next(s, a).origin == s.origin
  {
    hide FileInv, Next;
    OriginStays(s, a);
    match a
    case RunCallback(_, _) => FileCallbackKeeps(s, a);
    case Save(_) => FileSaveKeeps(s, a);
    case FailSave(_) => FileFailSaveKeeps(s, a);
    case Lapse(_) => FileLapseKeeps(s, a);
    case _ => FileMoveKeeps(s, a);
  }

  lemma HolderSeesTheFile(s: State, s': State)
    requires s'.disk == s.disk
    ensures forall pc :: HolderInv(s, pc) ==> HolderInv(s', pc)
  {
    hide RunEdit;
  }

  lemma {:induction false} FileTraceKeeps(s: State, actions: seq<Action>)
    requires FileInv(s) && Trace(s, actions)
    ensures FileInv(After(s, actions)) && After(s, actions).origin == s.origin
    decreases |actions|
  {
    hide FileInv, Next, Enabled;
    if actions != [] {
      FileStepKeeps(s, actions[0]);
      FileTraceKeeps(Next(s, actions[0]), actions[1..]);
    }
  }

  // ---------- one step: the tokens ----------

  /** A step of one process that touches neither the file nor the issuer. */
  lemma MoveKeeps(s: State, p: Pid, pc: Pc, s': State)
    requires TokenInv(s)
    requires s' == At(s, p, pc).(holder := s'.holder) && Unnoticed(s, s')
    requires Held(pc).None? || (p in s.pcs && Held(pc) == Held(s.pcs[p]))
    ensures TokenInv(s')
  {
    hide AllChange, PresentedInv, HeldInv, WellStored, StaleInv, RunEdit;
    UnnoticedKeepsLog(s, s');
    if p in s.pcs && Held(pc) == Held(s.pcs[p]) {
      KeepHeld(s.pcs, p, pc, s.issuer, Settled(s), OnDisk(s.disk));
    } else if p in s.pcs {
      DropHeld(s.pcs, p, pc, s.issuer, Settled(s), OnDisk(s.disk));
    } else {
      TakeUpHeld(s.pcs, p, pc, s.issuer, Settled(s), OnDisk(s.disk));
    }
  }

  lemma SignInKeeps(s: State, a: Action)
    requires Inv(s) && a.SignIn? && Enabled(s, a)
    ensures TokenInv(Next(s, a))
  {
    hide AllChange, PresentedInv, HeldInv, WellStored, StaleInv, RunEdit;
    var s' := Next(s, a);
    var pc := SignedIn(a.name, a.profile);
    FileMoveKeeps(s, a);
    UnnoticedKeepsLog(s, s');
    if RefreshOf(a.profile).Some? {
      var t := RefreshOf(a.profile).value;
      DiskTokensAreKnown(s, t);
      MarkStored(Settled(s), s.issuer, t, Live);
      MarkPresented(s.presented, s.issuer, t, Live);
      MarkKeepsPending(s, s', t, Live);
      MarkHeld(s.pcs, s.issuer, Settled(s), OnDisk(s.disk), t, Live);
    }
    TakeUpHeld(s.pcs, a.pid, pc, s'.issuer, Settled(s), OnDisk(s.disk));
  }

  lemma GiveUpKeeps(s: State, a: Action)
    requires Inv(s) && a.GiveUpSignIn? && Enabled(s, a)
    ensures TokenInv(Next(s, a))
  {
    hide AllChange, PresentedInv, HeldInv, WellStored, StaleInv, RunEdit;
    var s' := Next(s, a);
    FileMoveKeeps(s, a);
    UnnoticedKeepsLog(s, s');
    DropHeld(s.pcs, a.pid, Idle, s.issuer, Settled(s), OnDisk(s.disk));
    assert Held(s.pcs[a.pid]) == RefreshOf(s.pcs[a.pid].profile);
    if Held(s.pcs[a.pid]).Some? && a.revoked {
      var t := Held(s.pcs[a.pid]).value;
      MarkStored(Settled(s), s.issuer, t, Revoked);
      MarkPresented(s.presented, s.issuer, t, Revoked);
      MarkKeepsPending(s, s', t, Revoked);
      MarkHeld(s'.pcs, s.issuer, Settled(s), OnDisk(s.disk), t, Revoked);
    }
  }

  lemma LapseKeeps(s: State, a: Action)
    requires Inv(s) && a.Lapse? && Enabled(s, a)
    ensures TokenInv(Next(s, a))
  {
    hide AllChange, PresentedInv, HeldInv, WellStored, StaleInv, RunEdit;
    var s' := Next(s, a);
    UnnoticedKeepsLog(s, s');
    MarkStored(Settled(s), s.issuer, a.token, Lapsed);
    MarkPresented(s.presented, s.issuer, a.token, Lapsed);
    MarkKeepsPending(s, s', a.token, Lapsed);
    MarkHeld(s.pcs, s.issuer, Settled(s), OnDisk(s.disk), a.token, Lapsed);
  }

  lemma CallbackPresents(presented: seq<Presentation>, ps: Profiles, issuer: Issuer, after: Issuer, e: Edit,
      reply: Reply, op: Op)
    requires PresentedInv(presented, issuer) && WellStored(ps, issuer) && Legal(op, reply, ps, issuer)
    requires e == RunEdit(op, reply, ps) && e.touch.Exchanging?
    requires forall t :: t in issuer ==> t in after
    requires forall t :: t in issuer && issuer[t].Spent? ==> after[t].Spent?
    requires after == IssuerAfter(issuer, e.touch, reply)
    ensures PresentedInv(presented + [Presentation(e.touch.token, issuer[e.touch.token], Spends(e.touch, reply))],
      after)
  {
    var t := e.touch.token;
    assert RefreshOf(ps[op.name]) == Some(t);
    assert Current(issuer[t]);
    assert Spends(e.touch, reply) ==> after[t] == Spent;
  }

  lemma UntouchedPresented(presented: seq<Presentation>, issuer: Issuer, after: Issuer)
    requires PresentedInv(presented, issuer)
    requires forall t :: t in issuer ==> t in after
    requires forall t :: t in issuer && issuer[t].Spent? ==> after[t].Spent?
    ensures PresentedInv(presented, after)
  {
  }

  /** A callback leaves every other process's sign-in token alone. */
  lemma CallbackHolds(pcs: map<Pid, Pc>, p: Pid, pc: Pc, issuer: Issuer, after: Issuer, base: Profiles,
      settled: Profiles)
    requires HeldInv(pcs, issuer, base, base) && p in pcs && Held(pc).None?
    requires forall t :: t in issuer ==> t in after
    requires forall t :: t in issuer && Absent(t, base) ==> after[t] == issuer[t]
    requires forall t :: t in issuer && Absent(t, base) && Held(pcs[p]) != Some(t) ==> Absent(t, settled)
    ensures HeldInv(pcs[p := pc], after, settled, base)
  {
  }

  lemma LogGrows(origin: Profiles, ran: seq<Change>, c: Change)
    requires AllChange(origin, ran) && RunEdit(c.op, c.reply, Replay(origin, ran)).changed
    ensures AllChange(origin, ran + [c])
  {
    hide RunEdit;
    assert (ran + [c])[..|ran|] == ran;
    forall k | 0 <= k < |ran + [c]|
      ensures RunEdit((ran + [c])[k].op, (ran + [c])[k].reply, Replay(origin, (ran + [c])[..k])).changed
    {
      if k < |ran| {
        assert (ran + [c])[..k] == ran[..k];
      }
    }
  }

  lemma LogShrinks(origin: Profiles, ran: seq<Change>)
    requires AllChange(origin, ran) && ran != []
    ensures AllChange(origin, ran[..|ran| - 1])
  {
    hide RunEdit;
    var less := ran[..|ran| - 1];
    assert forall k :: 0 <= k < |less| ==> less[..k] == ran[..k];
  }

  lemma CallbackStepKeeps(s: State, a: Action)
    requires Inv(s) && a.RunCallback? && Enabled(s, a)
    ensures TokenInv(Next(s, a))
  {
    hide AllChange, PresentedInv, HeldInv, WellStored, StaleInv, RunEdit, IssuerAfter, Replay;
    var s' := Next(s, a);
    var p := a.pid;
    var op, base := s.pcs[p].op, s.pcs[p].base;
    assert s.holder == Some(p) && base == Settled(s) == OnDisk(s.disk);
    SignInIsLegal(s, p, a.reply);
    CallbackKeeps(op, a.reply, base, s.issuer);
    var e := RunEdit(op, a.reply, base);
    assert s'.pcs == s.pcs[p := Edited(op, a.reply, e)];
    assert Settled(s') == if e.changed then e.profiles else base;
    CallbackHolds(s.pcs, p, s'.pcs[p], s.issuer, s'.issuer, base, Settled(s'));
    if e.touch.Exchanging? {
      CallbackPresents(s.presented, base, s.issuer, s'.issuer, e, a.reply, op);
    } else {
      UntouchedPresented(s.presented, s.issuer, s'.issuer);
    }
  }

  lemma SignInIsLegal(s: State, p: Pid, reply: Reply)
    requires Inv(s) && Enabled(s, RunCallback(p, reply))
    ensures Legal(s.pcs[p].op, reply, s.pcs[p].base, s.issuer)
  {
    hide AllChange, PresentedInv, WellStored, StaleInv, RunEdit;
    var op := s.pcs[p].op;
    assert s.holder == Some(p) && s.pcs[p].base == Settled(s);
    assert op.Replace? ==> Held(s.pcs[p]) == RefreshOf(op.profile);
  }

  lemma SaveKeeps(s: State, a: Action)
    requires Inv(s) && a.Save? && Enabled(s, a)
    ensures TokenInv(Next(s, a))
  {
    hide AllChange, PresentedInv, HeldInv, WellStored, StaleInv, RunEdit;
    var s' := Next(s, a);
    assert s.holder == Some(a.pid);
    assert Settled(s') == Settled(s) == OnDisk(s'.disk);
    SaveHolds(s.pcs, a.pid, s.issuer, Settled(s), OnDisk(s.disk));
  }

  lemma SaveHolds(pcs: map<Pid, Pc>, p: Pid, issuer: Issuer, settled: Profiles, onDisk: Profiles)
    requires HeldInv(pcs, issuer, settled, onDisk)
    ensures HeldInv(pcs[p := Closing], issuer, settled, settled)
  {
  }

  /** The table waiting to be saved is the whole log replayed. */
  lemma SavedIsReplayed(s: State)
    requires FileInv(s) && SavePending(s)
    ensures LoadSessionFile(s.disk).Ok? && PcOf(s, s.holder.value).edit.profiles == Replay(s.origin, s.ran)
  {
    hide AllChange, PresentedInv, HeldInv, WellStored, StaleInv, RunEdit;
    var pc := PcOf(s, s.holder.value);
    assert HolderInv(s, pc);
    assert s.ran == s.ran[..|s.ran| - 1] + [Change(pc.op, pc.reply)];
  }

  /** An edit that voided no token can fail to be saved: the file is as good as before it. */
  lemma UnconsumedIsWellStored(ps: Profiles, issuer: Issuer, touch: Touch, reply: Reply)
    requires StaleInv(ps, issuer, touch, reply)
    ensures WellStored(ps, issuer) <==> !Consumes(touch, reply)
  {
    if Consumes(touch, reply) {
      var n :| n in ps && RefreshOf(ps[n]) == Some(touch.token);
    }
  }

  lemma FailSaveHolds(pcs: map<Pid, Pc>, p: Pid, issuer: Issuer, settled: Profiles, onDisk: Profiles)
    requires HeldInv(pcs, issuer, settled, onDisk)
    ensures HeldInv(pcs[p := Closing], issuer, onDisk, onDisk)
  {
  }

  lemma FailSaveKeeps(s: State, a: Action)
    requires Inv(s) && a.FailSave? && Enabled(s, a)
    requires !Consumes(PcOf(s, a.pid).edit.touch, PcOf(s, a.pid).reply)
    ensures TokenInv(Next(s, a))
  {
    hide AllChange, PresentedInv, HeldInv, WellStored, StaleInv, RunEdit, Replay;
    var s' := Next(s, a);
    assert s.holder == Some(a.pid) && SavePending(s) && !SavePending(s');
    UnconsumedIsWellStored(OnDisk(s.disk), s.issuer, PcOf(s, a.pid).edit.touch, PcOf(s, a.pid).reply);
    FailSaveHolds(s.pcs, a.pid, s.issuer, Settled(s), OnDisk(s.disk));
  }

  predicate IsQuiet(a: Action) {
    a.LookFresh? || a.Begin? || a.Queue? || a.StopWaiting? || a.Acquire? || a.ReadFile? || a.Unlock?
  }

  lemma QuietIsAMove(s: State, a: Action)
    requires Enabled(s, a) && IsQuiet(a)
    ensures var s' := Next(s, a);
      || s' == s
      || (a.pid in s'.pcs && s' == At(s, a.pid, s'.pcs[a.pid]).(holder := s'.holder) &&
          (Held(s'.pcs[a.pid]).None? || (a.pid in s.pcs && Held(s'.pcs[a.pid]) == Held(s.pcs[a.pid]))))
  {
    hide RunEdit;
    match a
    case LookFresh(_, _, _, _) =>
    case Queue(_) =>
    case ReadFile(_) =>
    case _ =>
  }

  lemma QuietKeeps(s: State, a: Action)
    requires Inv(s) && Enabled(s, a) && IsQuiet(a)
    ensures TokenInv(Next(s, a))
  {
    FileMoveKeeps(s, a);
    QuietIsAMove(s, a);
    hide AllChange, TokenInv, FileInv, RunEdit, LockInv, Next, Enabled, Held, Unnoticed;
    var s' := Next(s, a);
    if s' != s {
      MoveKeeps(s, a.pid, s'.pcs[a.pid], s');
    }
  }

  lemma StepKeeps(s: State, a: Action)
    requires Inv(s) && Enabled(s, a)
    requires a.FailSave? ==> !Consumes(PcOf(s, a.pid).edit.touch, PcOf(s, a.pid).reply)
    ensures Inv(Next(s, a))
  {
    FileStepKeeps(s, a);
    hide FileInv, TokenInv, Next;
    match a
    case SignIn(_, _, _) => SignInKeeps(s, a);
    case GiveUpSignIn(_, _) => GiveUpKeeps(s, a);
    case RunCallback(_, _) => CallbackStepKeeps(s, a);
    case Save(_) => SaveKeeps(s, a);
    case FailSave(_) => FailSaveKeeps(s, a);
    case Lapse(_) => LapseKeeps(s, a);
    case _ => QuietKeeps(s, a);
  }

  lemma OriginStays(s: State, a: Action)
    requires Enabled(s, a)
    ensures Next(s, a).origin == s.origin
  {
  }

  lemma {:induction false} TraceKeeps(s: State, actions: seq<Action>)
    requires Inv(s) && Trace(s, actions) && SavesWhatItSpends(s, actions)
    ensures Inv(After(s, actions)) && After(s, actions).origin == s.origin
    decreases |actions|
  {
    if actions != [] {
      StepKeeps(s, actions[0]);
      OriginStays(s, actions[0]);
      TraceKeeps(Next(s, actions[0]), actions[1..]);
    }
  }

  lemma InitInv(s: State)
    requires Init(s)
    ensures Inv(s)
  {
  }

  // ---------- the promises ----------

  /** No process ever presents a spent or revoked refresh token, whatever the interleaving. */
  lemma NeverPresentsASpentToken(s: State, actions: seq<Action>, i: nat)
    requires Init(s) && Trace(s, actions) && SavesWhatItSpends(s, actions) && i < |After(s, actions).presented|
    ensures Current(After(s, actions).presented[i].status)
  {
    InitInv(s);
    TraceKeeps(s, actions);
  }

  /** Two presentations of one token never both spend it, even by different processes. */
  lemma NoTokenIsSpentTwice(s: State, actions: seq<Action>, i: nat, j: nat)
    requires Init(s) && Trace(s, actions) && SavesWhatItSpends(s, actions) && i < j < |After(s, actions).presented|
    requires After(s, actions).presented[i].spent
    ensures After(s, actions).presented[j].token != After(s, actions).presented[i].token
  {
    InitInv(s);
    TraceKeeps(s, actions);
  }

  /** Whenever no change waits to be saved, in particular whenever the lock is free, every
      refresh token in the file is one the issuer neither spent nor revoked, and no two
      profiles share one. */
  lemma StoredTokensAreCurrent(s: State, actions: seq<Action>)
    requires Init(s) && Trace(s, actions) && SavesWhatItSpends(s, actions)
    ensures var end := After(s, actions);
            && (end.holder.None? ==> !SavePending(end))
            && (!SavePending(end) ==> WellStored(OnDisk(end.disk), end.issuer))
  {
    InitInv(s);
    TraceKeeps(s, actions);
  }

  /** The edits are serialisable, whatever saves fail. The file is always the saved changes
      applied one after the other in lock order to what it held first, so a reader without the
      lock sees the table after some whole number of edits; a change waiting to be saved is the
      next in line and ran on that very table. No logged edit is one that reported no change. */
  lemma EditsAreSerialisable(s: State, actions: seq<Action>)
    requires Init(s) && Trace(s, actions)
    ensures var end := After(s, actions);
            && AllChange(s.origin, end.ran)
            && (LoadSessionFile(end.disk).Ok? ==> OnDisk(end.disk) == Replay(s.origin, SavedChanges(end)))
            && (LoadSessionFile(end.disk).Ok? && SavePending(end) ==>
                  PcOf(end, end.holder.value).edit.profiles == Replay(s.origin, end.ran))
  {
    InitInv(s);
    FileTraceKeeps(s, actions);
    hide AllChange, RunEdit, Replay;
    if SavePending(After(s, actions)) {
      SavedIsReplayed(After(s, actions));
    }
  }

  /** A file this binary cannot read, or of a newer format, is never replaced, whenever in a run
      it turns up. */
  lemma UnreadableFileIsKept(s: State, actions: seq<Action>, later: seq<Action>)
    requires Init(s) && Trace(s, actions) && LoadSessionFile(After(s, actions).disk).Err?
    requires Trace(After(s, actions), later)
    ensures After(After(s, actions), later).disk == After(s, actions).disk
  {
    InitInv(s);
    FileTraceKeeps(s, actions);
    UnreadableStays(After(s, actions), later);
  }

  lemma {:induction false} UnreadableStays(s: State, actions: seq<Action>)
    requires FileInv(s) && Trace(s, actions) && LoadSessionFile(s.disk).Err?
    ensures After(s, actions).disk == s.disk
    decreases |actions|
  {
    if actions != [] {
      FileStepKeeps(s, actions[0]);
      UnreadableStepStays(s, actions[0]);
      hide FileInv, Next, Enabled;
      UnreadableStays(Next(s, actions[0]), actions[1..]);
    }
  }

  lemma UnreadableStepStays(s: State, a: Action)
    requires FileInv(s) && Enabled(s, a) && LoadSessionFile(s.disk).Err?
    ensures Next(s, a).disk == s.disk
  {
    hide AllChange, RunEdit;
    assert a.Save? ==> HolderInv(s, s.pcs[a.pid]);
  }

  /** Without the hypothesis on saves the promise fails: a save that fails leaves a current
      file exactly when the edit voided no token. */
  lemma FailedSaveIsHarmlessIff(s: State, a: Action)
    requires Inv(s) && a.FailSave? && Enabled(s, a)
    ensures WellStored(OnDisk(Next(s, a).disk), Next(s, a).issuer)
            <==> !Consumes(PcOf(s, a.pid).edit.touch, PcOf(s, a.pid).reply)
  {
    hide AllChange, PresentedInv, HeldInv, WellStored, StaleInv, RunEdit;
    assert s.holder == Some(a.pid) && SavePending(s);
    UnconsumedIsWellStored(OnDisk(s.disk), s.issuer, PcOf(s, a.pid).edit.touch, PcOf(s, a.pid).reply);
  }

  lemma Prefixed(s: State, a: Action, rest: seq<Action>)
    requires Enabled(s, a) && Trace(Next(s, a), rest)
    ensures Trace(s, [a] + rest) && After(s, [a] + rest) == After(Next(s, a), rest)
  {
    hide Enabled, Next;
    assert ([a] + rest)[1..] == rest;
  }

  lemma {:induction false} TraceJoins(s: State, first: seq<Action>, second: seq<Action>)
    requires Trace(s, first) && Trace(After(s, first), second)
    ensures Trace(s, first + second) && After(s, first + second) == After(After(s, first), second)
    decreases |first|
  {
    hide Enabled, Next;
    if first == [] {
      assert first + second == second;
    } else {
      TraceJoins(Next(s, first[0]), first[1..], second);
      assert first + second == [first[0]] + (first[1..] + second);
      Prefixed(s, first[0], first[1..] + second);
    }
  }

  /** A process at the end of its wait takes the lock and reads the file. */
  lemma EntersAndReads(s: State, p: Pid, op: Op, rest: seq<Action>)
    requires s.holder.None? && PcOf(s, p) == Waiting(op)
    requires var pc := if LoadSessionFile(s.disk).Ok? then Loaded(op, OnDisk(s.disk)) else Closing;
             Trace(At(s, p, pc).(holder := Some(p)), rest)
    ensures Trace(s, [Acquire(p), ReadFile(p)] + rest)
    ensures var pc := if LoadSessionFile(s.disk).Ok? then Loaded(op, OnDisk(s.disk)) else Closing;
            After(s, [Acquire(p), ReadFile(p)] + rest) == After(At(s, p, pc).(holder := Some(p)), rest)
  {
    var s1 := Next(s, Acquire(p));
    var pc := if LoadSessionFile(s.disk).Ok? then Loaded(op, OnDisk(s.disk)) else Closing;
    assert s.pcs[p := Locked(op)][p := pc] == s.pcs[p := pc];
    assert Next(s1, ReadFile(p)) == At(s, p, pc).(holder := Some(p));
    Prefixed(s1, ReadFile(p), rest);
    Prefixed(s, Acquire(p), [ReadFile(p)] + rest);
    assert [Acquire(p)] + ([ReadFile(p)] + rest) == [Acquire(p), ReadFile(p)] + rest;
  }

  /** A process that gives up waiting, or lets go of the lock, is idle again and has changed nothing
      else; one that gives up a sign-in may revoke the token it minted. */
  lemma LeavingChangesNothingElse(s: State, a: Action)
    requires Enabled(s, a) && (a.StopWaiting? || a.Unlock? || a.GiveUpSignIn?)
    ensures var s' := Next(s, a);
      && PcOf(s', a.pid) == Idle && (forall p :: p != a.pid ==> PcOf(s', p) == PcOf(s, p))
      && s'.disk == s.disk && s'.presented == s.presented && s'.ran == s.ran
      && (a.Unlock? ==> s'.holder == None) && (!a.Unlock? ==> s'.holder == s.holder)
      && (!a.GiveUpSignIn? ==> s'.issuer == s.issuer)
  {
  }

  // ---------- the hypothesis on saves is exact ----------

  /** A save that fails did not void the token the file still holds. */
  predicate SparesTheFile(s: State, a: Action)
    requires Enabled(s, a)
  {
    a.FailSave? ==> !Consumes(PcOf(s, a.pid).edit.touch, PcOf(s, a.pid).reply)
  }

  ghost predicate AllCurrent(presented: seq<Presentation>) {
    forall i :: 0 <= i < |presented| ==> Current(presented[i].status)
  }

  /** A profile whose refresh token the issuer has voided, and the time at which it is worn. */
  predicate VoidedProfile(s: State, name: string, now: int) {
    && LoadSessionFile(s.disk).Ok? && name in OnDisk(s.disk)
    && var p := OnDisk(s.disk)[name];
    && p.url != "" && RefreshOf(p).Some? && !Fresh(p, now)
    && RefreshOf(p).value in s.issuer && !Current(s.issuer[RefreshOf(p).value])
  }

  /** What any process that looks at such a profile goes on to do. */
  function RefreshSteps(p: Pid, name: string, url: string, now: int): seq<Action> {
    [LookFresh(p, name, url, now)]
      + ([Acquire(p), ReadFile(p)] + [RunCallback(p, Reply(now, InvalidGrant, false, false))])
  }

  lemma LookFindsItWorn(s: State, p: Pid, name: string, now: int)
    requires VoidedProfile(s, name, now) && PcOf(s, p).Idle?
    ensures var url := OnDisk(s.disk)[name].url;
      && Enabled(s, LookFresh(p, name, url, now))
      && Next(s, LookFresh(p, name, url, now)) == At(s, p, Waiting(Refreshing(name, url)))
  {
  }

  lemma CallbackPresentsIt(s: State, p: Pid, name: string, now: int)
    requires VoidedProfile(s, name, now)
    requires PcOf(s, p) == Loaded(Refreshing(name, OnDisk(s.disk)[name].url), OnDisk(s.disk))
    ensures var a := RunCallback(p, Reply(now, InvalidGrant, false, false));
      var t := RefreshOf(OnDisk(s.disk)[name]).value;
      Enabled(s, a) && Next(s, a).presented == s.presented + [Presentation(t, s.issuer[t], false)]
  {
  }

  lemma VoidedTokenIsPresented(s: State, p: Pid, name: string, now: int)
    requires s.holder.None? && PcOf(s, p).Idle? && VoidedProfile(s, name, now)
    ensures var steps := RefreshSteps(p, name, OnDisk(s.disk)[name].url, now);
      Trace(s, steps) && !AllCurrent(After(s, steps).presented)
  {
    var url := OnDisk(s.disk)[name].url;
    var op, reply := Refreshing(name, url), Reply(now, InvalidGrant, false, false);
    LookFindsItWorn(s, p, name, now);
    var waiting := At(s, p, Waiting(op));
    var loaded := At(waiting, p, Loaded(op, OnDisk(s.disk))).(holder := Some(p));
    CallbackPresentsIt(loaded, p, name, now);
    var t := RefreshOf(OnDisk(s.disk)[name]).value;
    var end := Next(loaded, RunCallback(p, reply));
    assert end.presented[|s.presented|] == Presentation(t, s.issuer[t], false);
    hide Enabled, Next, RunEdit;
    Prefixed(loaded, RunCallback(p, reply), []);
    assert [RunCallback(p, reply)] + [] == [RunCallback(p, reply)];
    EntersAndReads(waiting, p, op, [RunCallback(p, reply)]);
    Prefixed(s, LookFresh(p, name, url, now), [Acquire(p), ReadFile(p)] + [RunCallback(p, reply)]);
  }

  /** Whether the profile that still holds the voided token can be used at all. A refresh has just
      used it, and sign-in never stores one without a url. */
  predicate StillUsable(s: State, a: Action)
    requires Enabled(s, a) && a.FailSave?
  {
    || PcOf(s, a.pid).op.Refreshing?
    || PcOf(s, a.pid).edit.touch.NoTouch?
    || forall n :: n in OnDisk(s.disk) && RefreshOf(OnDisk(s.disk)[n]) == Some(PcOf(s, a.pid).edit.touch.token) ==>
         OnDisk(s.disk)[n].url != ""
  }

  lemma RefreshHasAUrl(op: Op, reply: Reply, ps: Profiles)
    requires op.Refreshing? && RunEdit(op, reply, ps).touch.Exchanging?
    ensures op.name in ps && ps[op.name].url != "" && RefreshOf(ps[op.name]) == Some(RunEdit(op, reply, ps).touch.token)
  {
  }

  function Worn(p: Profile): int {
    if p.expires.Some? then p.expires.value else 0
  }

  /** The state a voiding failed save leads to, once its process lets go of the lock. */
  lemma FailedSaveLeavesAVoidedProfile(s: State, a: Action) returns (name: string)
    requires Inv(s) && Enabled(s, a) && !SparesTheFile(s, a) && StillUsable(s, a)
    ensures name in OnDisk(s.disk) && OnDisk(Next(s, a).disk) == OnDisk(s.disk)
    ensures var s' := Next(s, a);
      && Enabled(s', Unlock(a.pid)) && Next(s', Unlock(a.pid)).holder.None?
      && PcOf(Next(s', Unlock(a.pid)), a.pid).Idle?
      && VoidedProfile(Next(s', Unlock(a.pid)), name, Worn(OnDisk(s.disk)[name]))
  {
    hide AllChange, PresentedInv, HeldInv, WellStored, RunEdit, LogInv;
    assert s.holder == Some(a.pid) && SavePending(s);
    var pc := PcOf(s, a.pid);
    assert HolderInv(s, pc);
    assert StaleInv(OnDisk(s.disk), s.issuer, pc.edit.touch, pc.reply);
    if pc.op.Refreshing? {
      assert pc.edit.touch.Exchanging? by { RefreshNeverRevokes(pc.op, pc.reply, OnDisk(s.disk)); }
      RefreshHasAUrl(pc.op, pc.reply, OnDisk(s.disk));
      name := pc.op.name;
    } else {
      name :| name in OnDisk(s.disk) && RefreshOf(OnDisk(s.disk)[name]) == Some(pc.edit.touch.token);
    }
  }

  lemma RefreshNeverRevokes(op: Op, reply: Reply, ps: Profiles)
    requires op.Refreshing?
    ensures !RunEdit(op, reply, ps).touch.Revoking?
  {
  }

  /** Every failed save that voided a token leads to its presentation: the process lets go of the
      lock, and it looks at the profile again once that is worn. */
  lemma FailedSaveLeadsToASpentToken(s: State, a: Action) returns (more: seq<Action>)
    requires Inv(s) && Enabled(s, a) && !SparesTheFile(s, a) && StillUsable(s, a)
    ensures Trace(Next(s, a), more) && SavesWhatItSpends(Next(s, a), more)
    ensures !AllCurrent(After(Next(s, a), more).presented)
  {
    var name := FailedSaveLeavesAVoidedProfile(s, a);
    var unlocked := Next(Next(s, a), Unlock(a.pid));
    var now, url := Worn(OnDisk(s.disk)[name]), OnDisk(unlocked.disk)[name].url;
    VoidedTokenIsPresented(unlocked, a.pid, name, now);
    var steps := RefreshSteps(a.pid, name, url, now);
    hide Enabled, Next, Inv, VoidedProfile, AllCurrent, RefreshSteps;
    Prefixed(Next(s, a), Unlock(a.pid), steps);
    more := [Unlock(a.pid)] + steps;
    forall b | b in more ensures !b.FailSave? {
      RefreshNeverFailsASave(a.pid, name, url, now);
    }
    NoFailedSaves(Next(s, a), more);
  }

  lemma RefreshNeverFailsASave(p: Pid, name: string, url: string, now: int)
    ensures forall b :: b in RefreshSteps(p, name, url, now) ==> !b.FailSave?
  {
  }

  lemma {:induction false} NoFailedSaves(s: State, actions: seq<Action>)
    requires Trace(s, actions) && forall b :: b in actions ==> !b.FailSave?
    ensures SavesWhatItSpends(s, actions)
    decreases |actions|
  {
    hide Enabled, Next;
    if actions != [] {
      NoFailedSaves(Next(s, actions[0]), actions[1..]);
    }
  }

  /** The hypothesis is exact, step by step: in every state the protocol keeps, a failed save spares
      the file if and only if every later run whose failed saves do presents current tokens only. */
  lemma SparingTheFileIsExact(s: State, a: Action)
    requires Inv(s) && Enabled(s, a)
    requires a.FailSave? ==> StillUsable(s, a)
    ensures SparesTheFile(s, a) <==>
      forall more :: Trace(Next(s, a), more) && SavesWhatItSpends(Next(s, a), more) ==>
        AllCurrent(After(Next(s, a), more).presented)
  {
    hide FileInv, TokenInv, Next, Enabled, AllCurrent;
    if SparesTheFile(s, a) {
      StepKeeps(s, a);
      forall more | Trace(Next(s, a), more) && SavesWhatItSpends(Next(s, a), more)
        ensures AllCurrent(After(Next(s, a), more).presented)
      {
        TraceKeeps(Next(s, a), more);
        PresentedAreCurrent(After(Next(s, a), more));
      }
    } else {
      var more := FailedSaveLeadsToASpentToken(s, a);
    }
  }

  lemma PresentedAreCurrent(s: State)
    requires Inv(s)
    ensures AllCurrent(s.presented)
  {
  }

  // ---------- a run that loses a session ----------

  const WORN := Profile("u", Some(0), "", Some(ProfileToken("", "", Some(0), [])))
  const RENEW := Refreshing("p", "u")

  /** One process, whose only profile has run out of time, and a file that never changes. */
  function OneProcess(issuer: Issuer, holder: Option<Pid>, pc: Pc, presented: seq<Presentation>,
      ran: seq<Change>): State {
    State(Stored(SESSION_FILE_VERSION, map["p" := WORN]), issuer, holder, map[0 := pc], presented, ran,
      map["p" := WORN])
  }

  lemma AnswerChanges(reply: Reply)
    requires reply.now == 0 && !reply.answer.Outage?
    ensures RunEdit(RENEW, reply, map["p" := WORN]).changed
    ensures RunEdit(RENEW, reply, map["p" := WORN]).touch == Exchanging(0)
  {
  }

  /** Its attempt to refresh, up to the answer. */
  lemma Attempts(issuer: Issuer, presented: seq<Presentation>, ran: seq<Change>, reply: Reply)
    requires 0 in issuer && Answers(issuer, 0, reply) && !reply.answer.Outage? && reply.now == 0
    ensures var s := OneProcess(issuer, None, Idle, presented, ran);
            var steps := [LookFresh(0, "p", "u", 0)] + ([Acquire(0), ReadFile(0)] + [RunCallback(0, reply)]);
            && Trace(s, steps)
            && After(s, steps) == OneProcess(IssuerAfter(issuer, Exchanging(0), reply), Some(0),
                                             Edited(RENEW, reply, RunEdit(RENEW, reply, map["p" := WORN])),
                                             presented + [Presentation(0, issuer[0], Spends(Exchanging(0), reply))],
                                             ran + [Change(RENEW, reply)])
  {
    var s := OneProcess(issuer, None, Idle, presented, ran);
    var queued := OneProcess(issuer, None, Waiting(RENEW), presented, ran);
    var loaded := OneProcess(issuer, Some(0), Loaded(RENEW, map["p" := WORN]), presented, ran);
    assert Next(s, LookFresh(0, "p", "u", 0)) == queued;
    var e := RunEdit(RENEW, reply, map["p" := WORN]);
    assert e.changed && e.touch == Exchanging(0);
    Prefixed(loaded, RunCallback(0, reply), []);
    EntersAndReads(queued, 0, RENEW, [RunCallback(0, reply)]);
    Prefixed(s, LookFresh(0, "p", "u", 0), [Acquire(0), ReadFile(0)] + [RunCallback(0, reply)]);
  }

  /** Its save fails and it lets go of the lock. */
  lemma LosesTheSave(issuer: Issuer, reply: Reply, e: Edit, presented: seq<Presentation>, c: Change)
    requires e.changed
    ensures var s := OneProcess(issuer, Some(0), Edited(RENEW, reply, e), presented, [c]);
            && Trace(s, [FailSave(0)] + [Unlock(0)])
            && After(s, [FailSave(0)] + [Unlock(0)]) == OneProcess(issuer, None, Idle, presented, [])
  {
    var s := OneProcess(issuer, Some(0), Edited(RENEW, reply, e), presented, [c]);
    var closing := OneProcess(issuer, Some(0), Closing, presented, []);
    assert Next(s, FailSave(0)) == closing;
    assert Next(closing, Unlock(0)) == OneProcess(issuer, None, Idle, presented, []);
    Prefixed(closing, Unlock(0), []);
    Prefixed(s, FailSave(0), [Unlock(0)]);
  }

  /** The run that loses a session: an exchange rotates the token, its save fails, and the next
      refresh presents the spent token. */
  lemma FailedSavePresentsASpentToken() returns (s: State, actions: seq<Action>)
    ensures Init(s) && Trace(s, actions)
    ensures var end := After(s, actions); end.presented != [] && !Current(end.presented[|end.presented| - 1].status)
  {
    hide RunEdit, Trace, After, Enabled, Next;
    var rotated := Reply(0, Tokens("", Some(1), [], Some(0)), true, false);
    var refused := Reply(0, InvalidGrant, false, false);
    var spent := map[0 := Live][0 := Spent][1 := Live];
    s := OneProcess(map[0 := Live], None, Idle, [], []);
    AnswerChanges(rotated);
    Attempts(map[0 := Live], [], [], rotated);
    var first := [LookFresh(0, "p", "u", 0)] + ([Acquire(0), ReadFile(0)] + [RunCallback(0, rotated)]);
    var e := RunEdit(RENEW, rotated, map["p" := WORN]);
    var shown := [Presentation(0, Live, true)];
    assert [] + shown == shown && [] + [Change(RENEW, rotated)] == [Change(RENEW, rotated)];
    LosesTheSave(spent, rotated, e, shown, Change(RENEW, rotated));
    TraceJoins(s, first, [FailSave(0)] + [Unlock(0)]);
    Attempts(spent, shown, [], refused);
    var second := [LookFresh(0, "p", "u", 0)] + ([Acquire(0), ReadFile(0)] + [RunCallback(0, refused)]);
    TraceJoins(s, first + ([FailSave(0)] + [Unlock(0)]), second);
    actions := first + ([FailSave(0)] + [Unlock(0)]) + second;
  }

  /** The steps one undisturbed process takes from the queue to the release of the lock. */
  function SoloSteps(d: Disk, p: Pid, op: Op, reply: Reply): seq<Action> {
    match LoadSessionFile(d)
    case Err(_) => [Acquire(p), ReadFile(p), Unlock(p)]
    case Ok(ps) =>
      if RunEdit(op, reply, ps).changed then [Acquire(p), ReadFile(p), RunCallback(p, reply), Save(p), Unlock(p)]
      else [Acquire(p), ReadFile(p), RunCallback(p, reply), Unlock(p)]
  }

  lemma SoloTail(loaded: State, p: Pid, op: Op, reply: Reply) returns (tail: seq<Action>)
    requires PcOf(loaded, p) == Loaded(op, OnDisk(loaded.disk)) && Enabled(loaded, RunCallback(p, reply))
    ensures tail ==
      if RunEdit(op, reply, OnDisk(loaded.disk)).changed then [RunCallback(p, reply), Save(p), Unlock(p)]
      else [RunCallback(p, reply), Unlock(p)]
    ensures Trace(loaded, tail) && After(loaded, tail).holder.None?
    ensures After(loaded, tail).disk ==
      if RunEdit(op, reply, OnDisk(loaded.disk)).changed then
        SaveSessionFile(RunEdit(op, reply, OnDisk(loaded.disk)).profiles)
      else loaded.disk
  {
    hide RunEdit, Answers, IssuerAfter;
    var edited := Next(loaded, RunCallback(p, reply));
    tail := [Unlock(p)];
    if RunEdit(op, reply, OnDisk(loaded.disk)).changed {
      Prefixed(Next(edited, Save(p)), Unlock(p), []);
      Prefixed(edited, Save(p), tail);
      tail := [Save(p)] + tail;
    } else {
      Prefixed(edited, Unlock(p), []);
    }
    Prefixed(loaded, RunCallback(p, reply), tail);
    tail := [RunCallback(p, reply)] + tail;
  }

  /** The steps add up to the store's own edit: left alone, a process leaves on disk what
      `ProfileStore.EditWith` leaves. */
  lemma SoloEditIsTheStoresEdit(s: State, p: Pid, op: Op, reply: Reply)
    requires s.holder.None? && PcOf(s, p) == Waiting(op)
    requires LoadSessionFile(s.disk).Ok? ==>
               var touch := RunEdit(op, reply, OnDisk(s.disk)).touch;
               touch.Exchanging? ==> touch.token in s.issuer && Answers(s.issuer, touch.token, reply)
    ensures Trace(s, SoloSteps(s.disk, p, op, reply))
    ensures After(s, SoloSteps(s.disk, p, op, reply)).disk ==
      DiskAfter(s.disk, (q: Profiles) => RunEdit(op, reply, q), true)
    ensures After(s, SoloSteps(s.disk, p, op, reply)).holder.None?
  {
    hide RunEdit, Answers, IssuerAfter;
    if LoadSessionFile(s.disk).Err? {
      var closing := At(s, p, Closing).(holder := Some(p));
      Prefixed(closing, Unlock(p), []);
      EntersAndReads(s, p, op, [Unlock(p)]);
      assert [Acquire(p), ReadFile(p)] + [Unlock(p)] == SoloSteps(s.disk, p, op, reply);
    } else {
      var loaded := At(s, p, Loaded(op, OnDisk(s.disk))).(holder := Some(p));
      var tail := SoloTail(loaded, p, op, reply);
      EntersAndReads(s, p, op, tail);
      assert [Acquire(p), ReadFile(p)] + tail == SoloSteps(s.disk, p, op, reply);
    }
  }
}
