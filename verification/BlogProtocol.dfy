/** Callers changing or deleting one post at once. Each call is a load, then a statement inside a
    transaction, then, but for an update, an event enqueued in the same transaction, then a
    commit; every interleaving of those steps is a trace. What the service leaves to its callers
    is a condition on the trace, `Disciplined`, and it is exact. */
module BlogProtocol {
  import opened Basics
  import opened BlogStore

  type Pid = nat

  datatype Call =
    | Transition(target: Status, ifVersion: int)
    // Setting the tags alone is an update without content that names no version.
    | Update(content: Option<Content>, tags: Option<seq<nat>>, ifVersion: int)
    | Delete(ifVersion: int)

  datatype Kind = PostPublished | PostUnpublished

  datatype Snapshot = Snapshot(content: Content, tags: seq<nat>, firstPublished: Option<int>, updated: int,
    version: int)

  datatype Event = Event(kind: Kind, data: Snapshot)

  /** A row version: what one transaction committed, the guard its save named, and the event it
      enqueued. */
  datatype Commit = Commit(row: Post, guard: int, event: Option<Event>)

  /** What a delete commits: the guard its statement named, and its event's data, taken from the
      version the deleter loaded. */
  datatype Deletion = Deletion(guard: int, from: int, slug: string, wasPublished: bool)

  /** `post` is the caller's copy, `loaded` before the change and `saved` after it. A delete stands
      at Removed when its statement has run and at Cleared when its event is in. */
  datatype Pc =
    | Idle
    | Started(call: Call, retried: bool)
    | Loaded(call: Call, retried: bool, loaded: Post)
    | Staged(call: Call, saved: Post)
    | Enqueued(call: Call, saved: Post)
    | Removed(call: Call, loaded: Post)
    | Cleared(call: Call, loaded: Post)
    | Done(call: Call, result: Result<Post, PostError>)

  /** A transaction that has written the row holds it until it ends. */
  datatype Pending = Storing(pid: Pid, commit: Commit) | Removing(pid: Pid, deletion: Deletion)

  /** `commits` lists the row's versions and `log` the publication events; `gone` is whether the
      row is deleted. */
  datatype State = State(
    commits: seq<Commit>, log: seq<Event>, gone: bool, deletions: seq<Deletion>,
    pending: Option<Pending>, pcs: map<Pid, Pc>)

  datatype Action =
    | Begin(pid: Pid, call: Call)
    | Load(pid: Pid)
    | Settle(pid: Pid)
    | Save(pid: Pid, now: int, slugTaken: bool)
    | Remove(pid: Pid)
    | Enqueue(pid: Pid, ok: bool)
    | End(pid: Pid, ok: bool)

  function PcOf(s: State, p: Pid): Pc {
    if p in s.pcs then s.pcs[p] else Idle
  }

  function At(s: State, p: Pid, pc: Pc): State {
    s.(pcs := s.pcs[p := pc])
  }

  /** The last version of the row. */
  function Row(s: State): Post
    requires s.commits != []
  {
    s.commits[|s.commits| - 1].row
  }

  /** The row a statement finds. */
  function Found(s: State): Option<Post>
    requires s.commits != []
  {
    if s.gone then None else Some(Row(s))
  }

  function KindOf(target: Status): Kind {
    if target.Published? then PostPublished else PostUnpublished
  }

  function ToSecond(t: int): int {
    t / SECOND * SECOND
  }

  function SnapshotOf(p: Post): Snapshot {
    Snapshot(p.content, p.tags, if p.firstPublished.Some? then Some(ToSecond(p.firstPublished.value)) else None,
             ToSecond(p.updated), p.version)
  }

  /** The call ends without a write: the caller named another version, or the post already has
      the status asked for. */
  function Settled(call: Call, p: Post): Option<Result<Post, PostError>> {
    if !call.Transition? then None
    else if call.ifVersion != 0 && call.ifVersion != p.version then Some(Err(Stale(call.ifVersion, p.version)))
    else if p.status == call.target then Some(Ok(p))
    else None
  }

  function Guard(call: Call, p: Post): int {
    if !call.Update? && call.ifVersion == 0 then p.version else call.ifVersion
  }

  function Changed(call: Call, p: Post, now: int): Post {
    match call
    case Transition(target, _) => Apply(p, target, now)
    case Update(content, tags, _) => Revise(p, if content.Some? then content.value else p.content, tags, now)
    case Delete(_) => p
  }

  function DeletionOf(p: Post, guard: int): Deletion {
    Deletion(guard, p.version, p.content.slug, p.status.Published?)
  }

  predicate Enabled(s: State, a: Action) {
    && s.commits != []
    && match a
       case Begin(p, _) => PcOf(s, p).Idle? || PcOf(s, p).Done?
       case Load(p) => PcOf(s, p).Started?
       case Settle(p) => PcOf(s, p).Loaded? && Settled(PcOf(s, p).call, PcOf(s, p).loaded).Some?
       // Another transaction's uncommitted write makes the statement wait.
       case Save(p, _, _) =>
         && PcOf(s, p).Loaded? && !PcOf(s, p).call.Delete?
         && Settled(PcOf(s, p).call, PcOf(s, p).loaded).None? && s.pending.None?
       case Remove(p) => PcOf(s, p).Loaded? && PcOf(s, p).call.Delete? && s.pending.None?
       case Enqueue(p, _) =>
         || (PcOf(s, p).Staged? && PcOf(s, p).call.Transition? && s.pending.Some? && s.pending.value.Storing?)
         || (PcOf(s, p).Removed? && s.pending.Some?)
       case End(p, _) =>
         || ((PcOf(s, p).Enqueued? || (PcOf(s, p).Staged? && PcOf(s, p).call.Update?))
             && s.pending.Some? && s.pending.value.Storing?)
         || (PcOf(s, p).Cleared? && s.pending.Some? && s.pending.value.Removing?)
  }

  function Logged(log: seq<Event>, c: Commit): seq<Event> {
    if c.event.Some? then log + [c.event.value] else log
  }

  function AfterSave(s: State, p: Pid, now: int, slugTaken: bool): State
    requires s.commits != [] && PcOf(s, p).Loaded?
  {
    var pc := PcOf(s, p);
    var changed := Changed(pc.call, pc.loaded, now);
    var guard := Guard(pc.call, pc.loaded);
    match SaveRow(Found(s), changed, guard, slugTaken)
    case Ok(row) =>
      At(s, p, Staged(pc.call, Persisted(changed))).(pending := Some(Storing(p, Commit(row, guard, None))))
    case Err(e) => Refused(s, p, pc, e)
  }

  /** A stale row gives an unconditional transition or delete one more try. */
  function Refused(s: State, p: Pid, pc: Pc, e: PostError): State
    requires pc.Loaded?
  {
    if e.Stale? && !pc.call.Update? && pc.call.ifVersion == 0 && !pc.retried then At(s, p, Started(pc.call, true))
    else At(s, p, Done(pc.call, Err(e)))
  }

  function AfterRemove(s: State, p: Pid): State
    requires s.commits != [] && PcOf(s, p).Loaded?
  {
    var pc := PcOf(s, p);
    var guard := Guard(pc.call, pc.loaded);
    if s.gone || !VersionGuard(guard, Row(s).version) then Refused(s, p, pc, RefusalError(Found(s), guard))
    else
      At(s, p, Removed(pc.call, pc.loaded)).(
        pending := Some(Removing(p, DeletionOf(pc.loaded, guard))))
  }

  function AfterEnqueue(s: State, p: Pid, ok: bool): State
    requires Enabled(s, Enqueue(p, ok))
  {
    var pc := PcOf(s, p);
    if !ok then At(s, p, Done(pc.call, Err(Unexpected))).(pending := None)
    else if pc.Removed? then At(s, p, Cleared(pc.call, pc.loaded))
    else
      var event := Event(KindOf(pc.call.target), SnapshotOf(pc.saved));
      At(s, p, Enqueued(pc.call, pc.saved)).(
        pending := Some(s.pending.value.(commit := s.pending.value.commit.(event := Some(event)))))
  }

  function AfterEnd(s: State, p: Pid, ok: bool): State
    requires Enabled(s, End(p, ok))
  {
    var pc := PcOf(s, p);
    if !ok then At(s, p, Done(pc.call, Err(Unexpected))).(pending := None)
    else if pc.Cleared? then
      At(s, p, Done(pc.call, Ok(pc.loaded))).(
        pending := None, gone := true, deletions := s.deletions + [s.pending.value.deletion])
    else
      var c := s.pending.value.commit;
      At(s, p, Done(pc.call, Ok(pc.saved))).(
        pending := None, gone := false, commits := s.commits + [c], log := Logged(s.log, c))
  }

  function Next(s: State, a: Action): State
    requires Enabled(s, a)
  {
    match a
    case Begin(p, call) => At(s, p, Started(call, false))
    case Load(p) =>
      if s.gone then At(s, p, Done(PcOf(s, p).call, Err(NotFound)))
      else At(s, p, Loaded(PcOf(s, p).call, PcOf(s, p).retried, Row(s)))
    case Settle(p) => At(s, p, Done(PcOf(s, p).call, Settled(PcOf(s, p).call, PcOf(s, p).loaded).value))
    case Save(p, now, slugTaken) => AfterSave(s, p, now, slugTaken)
    case Remove(p) => AfterRemove(s, p)
    case Enqueue(p, ok) => AfterEnqueue(s, p, ok)
    case End(p, ok) => AfterEnd(s, p, ok)
  }

  ghost predicate Trace(s: State, actions: seq<Action>)
    decreases |actions|
  {
    actions == [] || (Enabled(s, actions[0]) && Trace(Next(s, actions[0]), actions[1..]))
  }

  ghost function After(s: State, actions: seq<Action>): State
    requires Trace(s, actions)
    decreases |actions|
  {
    if actions == [] then s else After(Next(s, actions[0]), actions[1..])
  }

  predicate SamePublication(p: Post, q: Post) {
    p.status == q.status && p.firstPublished == q.firstPublished
  }

  /** What the service relies on its callers for: a save that goes through does not write over a
      deletion, and an update's does not write over a publication it has not seen. */
  predicate Heeds(s: State, a: Action)
    requires Enabled(s, a)
  {
    a.Save? ==>
      var pc := PcOf(s, a.pid);
      SaveRow(Found(s), Changed(pc.call, pc.loaded, a.now), Guard(pc.call, pc.loaded), a.slugTaken).Ok? ==>
        !s.gone && (pc.call.Update? ==> SamePublication(pc.loaded, Row(s)))
  }

  ghost predicate Disciplined(s: State, actions: seq<Action>)
    requires Trace(s, actions)
    decreases |actions|
  {
    actions != [] ==> Heeds(s, actions[0]) && Disciplined(Next(s, actions[0]), actions[1..])
  }

  // ---------- what every step keeps ----------

  /** A lawful successor of a row: the next version, under a guard naming the one before or none; a
      status flip comes with an event that shows the new row, and nothing else does; a first
      publication time, once set, stays. */
  ghost predicate Follows(before: Post, c: Commit) {
    && c.row.version == before.version + 1 <= MAX_INT32
    && (c.guard == before.version || c.guard == 0)
    && (c.event.None? <==> c.row.status == before.status)
    && (c.event.Some? ==> c.event.value == Event(KindOf(c.row.status), SnapshotOf(c.row)))
    && (before.firstPublished.Some? ==> c.row.firstPublished == before.firstPublished)
    && (c.row.status.Published? ==> c.row.firstPublished.Some?)
  }

  /** The same, for a transition whose event is still to be enqueued. */
  ghost predicate AlmostFollows(before: Post, c: Commit) {
    c.event.None? && c.row.status != before.status
      && Follows(before, c.(event := Some(Event(KindOf(c.row.status), SnapshotOf(c.row)))))
  }

  ghost predicate History(commits: seq<Commit>) {
    && commits != []
    && 1 <= commits[0].row.version
    && (commits[0].row.status.Published? ==> commits[0].row.firstPublished.Some?)
    && (forall i :: 0 < i < |commits| ==> Follows(commits[i - 1].row, commits[i]))
    && (forall i :: 0 <= i < |commits| ==> commits[i].row.version == commits[0].row.version + i)
  }

  /** The kinds alternate, starting opposite to the first status and ending at the last one. */
  ghost predicate Alternates(log: seq<Event>, first: Status, last: Status) {
    && (log == [] ==> first == last)
    && (log != [] ==> log[0].kind != KindOf(first) && log[|log| - 1].kind == KindOf(last))
    && (forall i :: 0 < i < |log| ==> log[i].kind != log[i - 1].kind)
  }

  /** Each event shows, under its version, the row that was committed with it. */
  ghost predicate Shows(log: seq<Event>, commits: seq<Commit>) {
    forall i :: 0 <= i < |log| ==> IsCommitted(log[i], commits)
  }

  ghost predicate IsCommitted(e: Event, commits: seq<Commit>) {
    exists k :: 0 < k < |commits| && commits[k].event == Some(e) && e.data.version == commits[k].row.version
  }

  ghost predicate IsOldRow(p: Post, commits: seq<Commit>) {
    exists k :: 0 <= k < |commits| && commits[k].row == p
  }

  ghost predicate PcInv(s: State, p: Pid, pc: Pc)
    requires s.commits != []
  {
    match pc
    case Loaded(_, _, loaded) => IsOldRow(loaded, s.commits)
    case Staged(call, saved) =>
      && s.pending.Some? && s.pending.value.Storing? && s.pending.value.pid == p
      && SavedAs(call, saved, s.pending.value.commit.row)
      && (if call.Transition? then AlmostFollows(Row(s), s.pending.value.commit) && saved.status == call.target
          else Follows(Row(s), s.pending.value.commit))
    case Enqueued(call, saved) =>
      && s.pending.Some? && s.pending.value.Storing? && s.pending.value.pid == p
      && SavedAs(call, saved, s.pending.value.commit.row)
      && Follows(Row(s), s.pending.value.commit) && call.Transition? && saved.status == call.target
    case Removed(call, loaded) =>
      && call.Delete? && IsOldRow(loaded, s.commits)
      && s.pending == Some(Removing(p, DeletionOf(loaded, Row(s).version)))
    case Cleared(call, loaded) =>
      && call.Delete? && IsOldRow(loaded, s.commits)
      && s.pending == Some(Removing(p, DeletionOf(loaded, Row(s).version)))
    case Done(call, result) => result.Ok? ==> Answered(call, result.value, s.commits)
    case _ => true
  }

  /** The row a save leaves is the caller's post, but for the version of an update that did not name
      one its load already had. */
  predicate SavedAs(call: Call, saved: Post, row: Post) {
    && row == saved.(version := row.version)
    && (row == saved || (call.Update? && (call.ifVersion == 0 || call.ifVersion >= saved.version)))
  }

  ghost predicate Answered(call: Call, told: Post, commits: seq<Commit>) {
    && (call.Transition? ==> told.status == call.target)
    && (exists k :: 0 <= k < |commits| && SavedAs(call, told, commits[k].row))
  }

  predicate Writes(pc: Pc) {
    pc.Staged? || pc.Enqueued? || pc.Removed? || pc.Cleared?
  }

  ghost predicate DeletesOldRow(d: Deletion, commits: seq<Commit>, guard: int) {
    exists k :: 0 <= k < |commits| && d == DeletionOf(commits[k].row, guard)
  }

  /** At most one deletion, under the last row's version, with nothing pending after it. */
  ghost predicate GoneInv(s: State)
    requires s.commits != []
  {
    && (s.gone ==> |s.deletions| == 1 && DeletesOldRow(s.deletions[0], s.commits, Row(s).version) && s.pending.None?)
    && (!s.gone ==> s.deletions == [])
    && (s.pending.Some? ==> Writes(PcOf(s, s.pending.value.pid)))
  }

  ghost predicate Inv(s: State) {
    && History(s.commits)
    && Alternates(s.log, s.commits[0].row.status, Row(s).status)
    && Shows(s.log, s.commits)
    && (forall p :: p in s.pcs ==> PcInv(s, p, s.pcs[p]))
    && GoneInv(s)
  }

  /** A post as created, or at any later moment no call is under way. */
  ghost predicate Init(s: State) {
    && |s.commits| == 1 && s.log == [] && s.pending.None? && !s.gone && s.deletions == []
    && (forall p :: p in s.pcs ==> s.pcs[p].Idle?)
    && 1 <= Row(s).version
    && (Row(s).status.Published? ==> Row(s).firstPublished.Some?)
  }

  // ---------- one step ----------

  lemma OldRowsAreNoNewer(commits: seq<Commit>, loaded: Post)
    requires History(commits) && IsOldRow(loaded, commits)
    ensures var row := commits[|commits| - 1].row;
      1 <= loaded.version <= row.version && (loaded.version == row.version ==> loaded == row)
    ensures var row := commits[|commits| - 1].row;
      loaded.firstPublished.Some? ==> row.firstPublished == loaded.firstPublished
  {
    var k :| 0 <= k < |commits| && commits[k].row == loaded;
    assert loaded.version == commits[0].row.version + k;
    if loaded.firstPublished.Some? {
      FirstPublicationStays(commits, k, |commits| - 1);
    }
  }

  lemma PublishedRowsAreDated(commits: seq<Commit>)
    requires History(commits)
    ensures var row := commits[|commits| - 1].row; row.status.Published? ==> row.firstPublished.Some?
  {
    if |commits| > 1 {
      assert Follows(commits[|commits| - 2].row, commits[|commits| - 1]);
    }
  }

  /** What a transition stages on top of the row it loaded is its lawful successor, an event short. */
  lemma TransitionFollows(row: Post, call: Call, now: int)
    requires row.status.Published? ==> row.firstPublished.Some?
    requires call.Transition? && Settled(call, row).None?
    requires SaveRow(Some(row), Changed(call, row, now), Guard(call, row), false).Ok?
    requires 1 <= row.version
    ensures var saved := SaveRow(Some(row), Changed(call, row, now), Guard(call, row), false).value;
            && saved == Persisted(Changed(call, row, now)) && saved.status == call.target
            && AlmostFollows(row, Commit(saved, Guard(call, row), None))
  {
  }

  /** What an update stages over a row is its lawful successor if and only if the publication it
      loaded is the row's. */
  lemma UpdateFollowsIff(row: Post, loaded: Post, call: Call, now: int)
    requires row.status.Published? ==> row.firstPublished.Some?
    requires loaded.firstPublished.Some? ==> row.firstPublished == loaded.firstPublished
    requires call.Update? && SaveRow(Some(row), Changed(call, loaded, now), call.ifVersion, false).Ok?
    ensures var saved := SaveRow(Some(row), Changed(call, loaded, now), call.ifVersion, false).value;
      Follows(row, Commit(saved, call.ifVersion, None)) <==> SamePublication(loaded, row)
  {
  }

  lemma SlugIsFree(row: Option<Post>, p: Post, guard: int, slugTaken: bool)
    requires SaveRow(row, p, guard, slugTaken).Ok?
    ensures !slugTaken && SaveRow(row, p, guard, false) == SaveRow(row, p, guard, slugTaken)
    ensures row.Some? ==> VersionGuard(guard, row.value.version)
    ensures row.Some? ==> SaveRow(row, p, guard, slugTaken) == Ok(p.(version := row.value.version + 1))
  {
  }

  /** A transition's guard, or a version an update was told, is not past its load, so getting past
      it means the copy is the row. */
  lemma GuardedCopyIsCurrent(commits: seq<Commit>, loaded: Post, guard: int)
    requires History(commits) && IsOldRow(loaded, commits)
    requires VersionGuard(guard, commits[|commits| - 1].row.version) && guard != 0 && guard <= loaded.version
    ensures loaded == commits[|commits| - 1].row
  {
    OldRowsAreNoNewer(commits, loaded);
  }

  lemma SaveStages(s: State, a: Action)
    requires Inv(s) && a.Save? && Enabled(s, a) && Heeds(s, a)
    ensures Inv(Next(s, a))
  {
    hide Follows, AlmostFollows, History, Alternates, Shows, IsOldRow, Changed, SaveRow, Answered, DeletesOldRow;
    var s' := Next(s, a);
    var pc := s.pcs[a.pid];
    assert PcInv(s, a.pid, pc);
    var changed, guard := Changed(pc.call, pc.loaded, a.now), Guard(pc.call, pc.loaded);
    if SaveRow(Found(s), changed, guard, a.slugTaken).Ok? {
      SlugIsFree(Some(Row(s)), changed, guard, a.slugTaken);
      OldRowsAreNoNewer(s.commits, pc.loaded);
      PublishedRowsAreDated(s.commits);
      ChangedKeepsTheVersion(pc.call, pc.loaded, a.now);
      if pc.call.Transition? {
        GuardedCopyIsCurrent(s.commits, pc.loaded, guard);
        TransitionFollows(Row(s), pc.call, a.now);
      } else {
        UpdateFollowsIff(Row(s), pc.loaded, pc.call, a.now);
        if guard != 0 && guard <= pc.loaded.version {
          GuardedCopyIsCurrent(s.commits, pc.loaded, guard);
        }
      }
    }
    forall p | p in s'.pcs
      ensures PcInv(s', p, s'.pcs[p])
    {
      assert p != a.pid ==> PcInv(s, p, s.pcs[p]);
    }
  }

  lemma ChangedKeepsTheVersion(call: Call, loaded: Post, now: int)
    ensures Changed(call, loaded, now).version == loaded.version
  {
  }

  lemma RemoveKeeps(s: State, a: Action)
    requires Inv(s) && a.Remove? && Enabled(s, a)
    ensures Inv(Next(s, a))
  {
    hide Follows, AlmostFollows, History, Alternates, Shows, IsOldRow, Answered, DeletesOldRow;
    var s' := Next(s, a);
    assert PcInv(s, a.pid, s.pcs[a.pid]);
    OldRowsAreNoNewer(s.commits, s.pcs[a.pid].loaded);
    forall p | p in s'.pcs
      ensures PcInv(s', p, s'.pcs[p])
    {
      assert p != a.pid ==> PcInv(s, p, s.pcs[p]);
    }
  }

  lemma EnqueueKeeps(s: State, a: Action)
    requires Inv(s) && a.Enqueue? && Enabled(s, a)
    ensures Inv(Next(s, a))
  {
    hide Follows, History, Alternates, Shows, IsOldRow, Answered, DeletesOldRow;
    var s' := Next(s, a);
    assert PcInv(s, a.pid, s.pcs[a.pid]);
    forall p | p in s'.pcs
      ensures PcInv(s', p, s'.pcs[p])
    {
      assert p != a.pid ==> PcInv(s, p, s.pcs[p]);
    }
  }

  lemma HistoryExtends(commits: seq<Commit>, c: Commit)
    requires History(commits) && Follows(commits[|commits| - 1].row, c)
    ensures History(commits + [c])
  {
    hide Follows;
    VersionsRise(commits[|commits| - 1].row, c);
    var commits' := commits + [c];
    forall i | 0 < i < |commits'|
      ensures Follows(commits'[i - 1].row, commits'[i])
    {
      assert i < |commits| ==> commits'[i] == commits[i];
    }
  }

  lemma AlternatesExtends(log: seq<Event>, first: Status, before: Post, c: Commit)
    requires Alternates(log, first, before.status) && Follows(before, c)
    ensures Alternates(Logged(log, c), first, c.row.status)
  {
  }

  lemma ShowsExtends(log: seq<Event>, commits: seq<Commit>, before: Post, c: Commit)
    requires commits != [] && Shows(log, commits) && Follows(before, c)
    ensures Shows(Logged(log, c), commits + [c])
  {
    var log' := Logged(log, c);
    var commits' := commits + [c];
    forall i | 0 <= i < |log'|
      ensures IsCommitted(log'[i], commits')
    {
      if i < |log| {
        assert IsCommitted(log[i], commits);
        var k :| 0 < k < |commits| && commits[k].event == Some(log[i]) && log[i].data.version == commits[k].row.version;
        assert commits'[k] == commits[k];
      } else {
        assert commits'[|commits|] == c && c.event == Some(log'[i]);
        assert log'[i].data.version == c.row.version;
      }
    }
  }

  lemma OldRowStaysOld(p: Post, commits: seq<Commit>, c: Commit)
    requires IsOldRow(p, commits)
    ensures IsOldRow(p, commits + [c])
  {
    var k :| 0 <= k < |commits| && commits[k].row == p;
    assert (commits + [c])[k] == commits[k];
  }

  lemma AnswerStays(call: Call, told: Post, commits: seq<Commit>, c: Commit)
    requires Answered(call, told, commits)
    ensures Answered(call, told, commits + [c])
  {
    var k :| 0 <= k < |commits| && SavedAs(call, told, commits[k].row);
    assert (commits + [c])[k] == commits[k];
  }

  lemma SaveAnswers(call: Call, saved: Post, commits: seq<Commit>, c: Commit)
    requires SavedAs(call, saved, c.row) && (call.Transition? ==> saved.status == call.target)
    ensures Answered(call, saved, commits + [c])
  {
    assert (commits + [c])[|commits|] == c;
  }

  lemma OldRowAnswers(call: Call, told: Post, commits: seq<Commit>)
    requires IsOldRow(told, commits) && (call.Transition? ==> told.status == call.target)
    ensures Answered(call, told, commits)
  {
    var k :| 0 <= k < |commits| && commits[k].row == told;
    assert SavedAs(call, told, commits[k].row);
  }

  lemma EndKeeps(s: State, a: Action)
    requires Inv(s) && a.End? && Enabled(s, a) && !PcOf(s, a.pid).Cleared? && a.ok
    ensures Inv(Next(s, a))
  {
    hide Follows, AlmostFollows, History, Alternates, Shows, IsOldRow, Answered, DeletesOldRow, SavedAs;
    var s' := Next(s, a);
    assert PcInv(s, a.pid, s.pcs[a.pid]);
    var c := s.pending.value.commit;
    HistoryExtends(s.commits, c);
    AlternatesExtends(s.log, s.commits[0].row.status, Row(s), c);
    ShowsExtends(s.log, s.commits, Row(s), c);
    forall p | p in s'.pcs
      ensures PcInv(s', p, s'.pcs[p])
    {
      if p != a.pid {
        assert PcInv(s, p, s.pcs[p]);
        if s.pcs[p].Loaded? {
          OldRowStaysOld(s.pcs[p].loaded, s.commits, c);
        }
        if s.pcs[p].Done? && s.pcs[p].result.Ok? {
          AnswerStays(s.pcs[p].call, s.pcs[p].result.value, s.commits, c);
        }
      } else {
        SaveAnswers(s.pcs[p].call, s.pcs[p].saved, s.commits, c);
      }
    }
  }

  /** A rollback, or a delete's commit. */
  lemma EndWithoutARowKeeps(s: State, a: Action)
    requires Inv(s) && a.End? && Enabled(s, a) && (PcOf(s, a.pid).Cleared? || !a.ok)
    ensures Inv(Next(s, a))
  {
    hide Follows, AlmostFollows, History, Alternates, Shows, IsOldRow, Answered, DeletesOldRow, SavedAs;
    var s' := Next(s, a);
    assert PcInv(s, a.pid, s.pcs[a.pid]);
    if a.ok {
      OldRowAnswers(s.pcs[a.pid].call, s.pcs[a.pid].loaded, s.commits);
      OldRowIsDeleted(s.pcs[a.pid].loaded, s.commits, Row(s).version);
      assert s.deletions == [];
    }
    forall p | p in s'.pcs
      ensures PcInv(s', p, s'.pcs[p])
    {
      assert p != a.pid ==> PcInv(s, p, s.pcs[p]);
    }
  }

  lemma OldRowIsDeleted(loaded: Post, commits: seq<Commit>, guard: int)
    requires IsOldRow(loaded, commits)
    ensures DeletesOldRow(DeletionOf(loaded, guard), commits, guard)
  {
  }

  lemma VersionsRise(before: Post, c: Commit)
    requires Follows(before, c)
    ensures c.row.version == before.version + 1
  {
  }

  lemma QuietKeeps(s: State, a: Action)
    requires Inv(s) && (a.Begin? || a.Load? || a.Settle?) && Enabled(s, a)
    ensures Inv(Next(s, a))
  {
    hide Follows, AlmostFollows, History, Alternates, Shows, IsOldRow, Answered, DeletesOldRow;
    var s' := Next(s, a);
    RowIsOld(s.commits);
    if a.Settle? {
      assert PcInv(s, a.pid, s.pcs[a.pid]);
      OldRowAnswersIf(s.pcs[a.pid].call, s.pcs[a.pid].loaded, s.commits);
    }
    forall p | p in s'.pcs
      ensures PcInv(s', p, s'.pcs[p])
    {
      assert p != a.pid ==> PcInv(s, p, s.pcs[p]);
    }
  }

  lemma RowIsOld(commits: seq<Commit>)
    requires commits != []
    ensures IsOldRow(commits[|commits| - 1].row, commits)
  {
  }

  lemma OldRowAnswersIf(call: Call, told: Post, commits: seq<Commit>)
    requires IsOldRow(told, commits)
    ensures (call.Transition? ==> told.status == call.target) ==> Answered(call, told, commits)
  {
    if call.Transition? ==> told.status == call.target {
      OldRowAnswers(call, told, commits);
    }
  }

  lemma StepKeeps(s: State, a: Action)
    requires Inv(s) && Enabled(s, a) && Heeds(s, a)
    ensures Inv(Next(s, a))
  {
    hide Inv, Next;
    match a
    case Save(_, _, _) => SaveStages(s, a);
    case Remove(_) => RemoveKeeps(s, a);
    case Enqueue(_, _) => EnqueueKeeps(s, a);
    case End(_, _) => if PcOf(s, a.pid).Cleared? || !a.ok { EndWithoutARowKeeps(s, a); } else { EndKeeps(s, a); }
    case _ => QuietKeeps(s, a);
  }

  lemma StepExtends(s: State, a: Action)
    requires Enabled(s, a)
    ensures s.commits <= Next(s, a).commits && s.log <= Next(s, a).log
  {
  }

  lemma {:induction false} TraceKeeps(s: State, actions: seq<Action>)
    requires Inv(s) && Trace(s, actions) && Disciplined(s, actions)
    ensures Inv(After(s, actions))
    ensures s.commits <= After(s, actions).commits && s.log <= After(s, actions).log
    decreases |actions|
  {
    hide Inv, Next, Enabled, Heeds;
    if actions != [] {
      StepKeeps(s, actions[0]);
      StepExtends(s, actions[0]);
      TraceKeeps(Next(s, actions[0]), actions[1..]);
    }
  }

  lemma InitInv(s: State)
    requires Init(s)
    ensures Inv(s)
  {
  }

  // ---------- the promises ----------

  /** The committed events strictly alternate between published and unpublished, and the last
      one tells the status the row has. */
  lemma EventsAlternate(s: State, actions: seq<Action>)
    requires Init(s) && Trace(s, actions) && Disciplined(s, actions)
    ensures After(s, actions).commits != []
    ensures Alternates(After(s, actions).log, Row(s).status, Row(After(s, actions)).status)
  {
    InitInv(s);
    TraceKeeps(s, actions);
  }

  /** Every committed event shows the very row that was committed with it: its version, text,
      tags and times. */
  lemma EventsShowTheirRow(s: State, actions: seq<Action>, i: nat)
    requires Init(s) && Trace(s, actions) && Disciplined(s, actions) && i < |After(s, actions).log|
    ensures var end := After(s, actions);
            var k := end.log[i].data.version - Row(s).version;
            && 0 < k < |end.commits|
            && end.log[i] == Event(KindOf(end.commits[k].row.status), SnapshotOf(end.commits[k].row))
            && end.commits[k - 1].row.status != end.commits[k].row.status
  {
    InitInv(s);
    TraceKeeps(s, actions);
    var end := After(s, actions);
    assert IsCommitted(end.log[i], end.commits);
    var k :| 0 < k < |end.commits| && end.commits[k].event == Some(end.log[i])
      && end.log[i].data.version == end.commits[k].row.version;
    assert Follows(end.commits[k - 1].row, end.commits[k]);
  }

  /** The row's versions rise by one a commit, a flip of the status and an event come together
      or not at all, and a first publication time never changes once it is set. */
  lemma RowsFollowEachOther(s: State, actions: seq<Action>, i: nat, j: nat)
    requires Init(s) && Trace(s, actions) && Disciplined(s, actions) && i < j < |After(s, actions).commits|
    ensures var commits := After(s, actions).commits;
            && commits[i].row.version == Row(s).version + i
            && (commits[j].event.Some? <==> commits[j].row.status != commits[j - 1].row.status)
            && (commits[i].row.firstPublished.Some? ==> commits[j].row.firstPublished == commits[i].row.firstPublished)
  {
    InitInv(s);
    TraceKeeps(s, actions);
    if After(s, actions).commits[i].row.firstPublished.Some? {
      FirstPublicationStays(After(s, actions).commits, i, j);
    }
    assert Follows(After(s, actions).commits[j - 1].row, After(s, actions).commits[j]);
  }

  lemma {:induction false} FirstPublicationStays(commits: seq<Commit>, i: nat, j: nat)
    requires History(commits) && i <= j < |commits| && commits[i].row.firstPublished.Some?
    ensures commits[j].row.firstPublished == commits[i].row.firstPublished
    decreases j
  {
    if i < j {
      FirstPublicationStays(commits, i, j - 1);
      assert Follows(commits[j - 1].row, commits[j]);
    }
  }

  ghost predicate IsOldRowButVersion(p: Post, commits: seq<Commit>) {
    exists k :: 0 <= k < |commits| && commits[k].row == p.(version := commits[k].row.version)
  }

  /** A caller told that its publish, unpublish or delete went through holds a row that was really
      committed, with the status it asked for. So does an update's that named a version its load
      already had, one below the one it is told; any other update's holds that row but for the
      version. */
  lemma AnswersAreCommitted(s: State, actions: seq<Action>, p: Pid)
    requires Init(s) && Trace(s, actions) && Disciplined(s, actions)
    requires PcOf(After(s, actions), p).Done? && PcOf(After(s, actions), p).result.Ok?
    ensures var pc, commits := PcOf(After(s, actions), p), After(s, actions).commits;
            && (pc.call.Transition? ==> pc.result.value.status == pc.call.target)
            && (pc.call.Update? ==> IsOldRowButVersion(pc.result.value, commits))
            && (!pc.call.Update? || 0 != pc.call.ifVersion < pc.result.value.version ==>
                 IsOldRow(pc.result.value, commits))
  {
    InitInv(s);
    TraceKeeps(s, actions);
    var pc, commits := PcOf(After(s, actions), p), After(s, actions).commits;
    assert PcInv(After(s, actions), p, pc);
    var k :| 0 <= k < |commits| && SavedAs(pc.call, pc.result.value, commits[k].row);
    assert commits[k].row == pc.result.value.(version := commits[k].row.version);
  }

  /** Of all the writers whose save named one version, at most one commits, even among updates that
      name none. */
  lemma OneWinnerPerVersion(s: State, actions: seq<Action>, i: nat, j: nat)
    requires Init(s) && Trace(s, actions) && Disciplined(s, actions) && 0 < i < j < |After(s, actions).commits|
    requires After(s, actions).commits[i].guard != 0
    ensures After(s, actions).commits[i].guard != After(s, actions).commits[j].guard
  {
    InitInv(s);
    TraceKeeps(s, actions);
    var commits := After(s, actions).commits;
    assert Follows(commits[i - 1].row, commits[i]) && Follows(commits[j - 1].row, commits[j]);
  }

  /** An update whose save gets past its guard writes over the row it loaded if and only if the
      version it names is not ahead of that load; one that names none, if and only if no one has
      saved since. */
  lemma UpdateWritesOverItsLoadIff(commits: seq<Commit>, k: nat, ifVersion: int)
    requires History(commits) && k < |commits| && VersionGuard(ifVersion, commits[|commits| - 1].row.version)
    ensures commits[k].row == commits[|commits| - 1].row <==>
      if ifVersion == 0 then k == |commits| - 1 else ifVersion <= commits[k].row.version
  {
    assert commits[k].row.version == commits[0].row.version + k;
    assert commits[|commits| - 1].row.version == commits[0].row.version + |commits| - 1;
  }

  /** So an update that names a version it was told, in particular one from an If-Match of an earlier
      read, never breaks the discipline but by a delete. */
  lemma ToldUpdatesHeed(s: State, a: Action)
    requires Inv(s) && a.Save? && Enabled(s, a) && !s.gone
    requires PcOf(s, a.pid).call.Update? && 0 != PcOf(s, a.pid).call.ifVersion <= PcOf(s, a.pid).loaded.version
    ensures Heeds(s, a)
  {
    hide History, Alternates, Shows, IsOldRow, SaveRow, Changed;
    var pc := s.pcs[a.pid];
    assert PcInv(s, a.pid, pc);
    var changed, guard := Changed(pc.call, pc.loaded, a.now), Guard(pc.call, pc.loaded);
    if SaveRow(Some(Row(s)), changed, guard, a.slugTaken).Ok? {
      SlugIsFree(Some(Row(s)), changed, guard, a.slugTaken);
      GuardedCopyIsCurrent(s.commits, pc.loaded, guard);
    }
  }

  // ---------- deletes ----------

  /** At most one delete commits, under the version of the row it deletes. Its event tells the slug
      and status of the version its caller loaded, and that is the row's unless the delete named a
      version ahead of its load. */
  lemma DeletionTellsTheRow(s: State, actions: seq<Action>)
    requires Init(s) && Trace(s, actions) && Disciplined(s, actions)
    ensures var end := After(s, actions);
      && end.commits != [] && |end.deletions| == (if end.gone then 1 else 0)
      && forall d :: d in end.deletions ==>
           && DeletesOldRow(d, end.commits, Row(end).version) && d.from <= d.guard == Row(end).version
           && (d.guard <= d.from ==>
                 && d == DeletionOf(Row(end), Row(end).version) && d.slug == Row(end).content.slug
                 && (d.wasPublished <==> Row(end).status == Published))
  {
    InitInv(s);
    TraceKeeps(s, actions);
    hide History, Alternates, Shows, PcInv, DeletesOldRow, Init;
    var end := After(s, actions);
    if end.gone {
      OldDeletionTells(end.commits, end.deletions[0]);
    }
  }

  lemma OldDeletionTells(commits: seq<Commit>, d: Deletion)
    requires History(commits) && DeletesOldRow(d, commits, commits[|commits| - 1].row.version)
    ensures var row := commits[|commits| - 1].row;
      d.from <= d.guard == row.version && (d.guard <= d.from ==> d == DeletionOf(row, row.version))
  {
    hide Follows;
    var k :| 0 <= k < |commits| && d == DeletionOf(commits[k].row, commits[|commits| - 1].row.version);
    OldRowsAreNoNewer(commits, commits[k].row);
  }

  /** Of a delete and a save that named one version, at most one commits. */
  lemma DeleteAndSaveExclude(s: State, actions: seq<Action>, i: nat)
    requires Init(s) && Trace(s, actions) && Disciplined(s, actions)
    requires 0 < i < |After(s, actions).commits|
    ensures forall d :: d in After(s, actions).deletions ==> After(s, actions).commits[i].guard != d.guard
  {
    InitInv(s);
    TraceKeeps(s, actions);
    var commits := After(s, actions).commits;
    assert Follows(commits[i - 1].row, commits[i]);
    assert commits[i - 1].row.version < commits[|commits| - 1].row.version;
    assert 1 <= commits[0].row.version <= Row(After(s, actions)).version;
  }

  lemma GoneStaysAStep(s: State, a: Action)
    requires Inv(s) && Enabled(s, a) && Heeds(s, a) && s.gone
    ensures Next(s, a).gone && Next(s, a).commits == s.commits
    ensures Next(s, a).log == s.log && Next(s, a).deletions == s.deletions
  {
    hide History, Alternates, Shows, PcInv, DeletesOldRow;
  }

  lemma {:induction false} GoneStays(s: State, actions: seq<Action>)
    requires Inv(s) && s.gone && Trace(s, actions) && Disciplined(s, actions)
    ensures var end := After(s, actions);
      end.gone && end.commits == s.commits && end.log == s.log && end.deletions == s.deletions
    decreases |actions|
  {
    hide Inv, Next, Enabled, Heeds;
    if actions != [] {
      StepKeeps(s, actions[0]);
      GoneStaysAStep(s, actions[0]);
      GoneStays(Next(s, actions[0]), actions[1..]);
    }
  }

  /** Nothing commits after a delete: no version, no event, no second delete. */
  lemma NothingFollowsADelete(s: State, actions: seq<Action>, later: seq<Action>)
    requires Init(s) && Trace(s, actions) && Disciplined(s, actions) && After(s, actions).gone
    requires Trace(After(s, actions), later) && Disciplined(After(s, actions), later)
    ensures var once, end := After(s, actions), After(After(s, actions), later);
      end.gone && end.commits == once.commits && end.log == once.log && end.deletions == once.deletions
  {
    InitInv(s);
    TraceKeeps(s, actions);
    GoneStays(After(s, actions), later);
  }
}
