/** What calls write, field by field, in every run, disciplined or not: each row committed and each
    post told is the call's edit of a row it loaded, and each event shows it. */
module BlogEdits {
  import opened Basics
  import opened BlogStore
  import opened BlogProtocol

  // ---------- the fields ----------

  /** The given tags, none twice, in the order of their first use. */
  ghost predicate FirstUses(ids: seq<nat>, out: seq<nat>) {
    && (forall id :: id in out <==> id in ids)
    && (forall i, j :: 0 <= i < j < |out| ==> out[i] != out[j])
    && (forall i, j, q :: 0 <= i < j < |out| && 0 <= q < |ids| && ids[q] == out[j] ==> out[i] in ids[..q])
  }

  /** `to` is what the call makes of `from` at a time; the version is counted elsewhere. */
  ghost predicate Edits(call: Call, from: Post, now: int, to: Post) {
    && to.updated == now
    && match call
       case Update(content, tags, _) =>
         && to.content == (if content.Some? then content.value else from.content)
         && (if tags.Some? then FirstUses(tags.value, to.tags) else to.tags == from.tags)
         && to.status == from.status && to.firstPublished == from.firstPublished
       case Transition(target, _) =>
         && to.content == from.content && to.tags == from.tags && to.status == target
         && to.firstPublished ==
              if target == Published && from.firstPublished == None then Some(now) else from.firstPublished
       case Delete(_) => false
  }

  lemma {:induction false} FirstSeenKeepsOrder(ids: seq<nat>)
    ensures FirstUses(ids, FirstSeen(ids))
  {
    FirstSeenIsASet(ids);
    if ids != [] {
      var less, last := ids[..|ids| - 1], ids[|ids| - 1];
      FirstSeenKeepsOrder(less);
      FirstSeenIsASet(less);
      var before, out := FirstSeen(less), FirstSeen(ids);
      forall i, j, q | 0 <= i < j < |out| && 0 <= q < |ids| && ids[q] == out[j]
        ensures out[i] in ids[..q]
      {
        assert out[i] == before[i] && before[i] in less;
        if q < |less| {
          assert less[q] == ids[q] && less[..q] == ids[..q];
          assert out[j] in before;
        } else {
          assert ids[..q] == less;
        }
      }
    }
  }

  lemma CallsEdit(call: Call, from: Post, now: int)
    requires !call.Delete?
    ensures Edits(call, from, now, Changed(call, from, now))
    ensures Changed(call, from, now).version == from.version
  {
    if call.Update? && call.tags.Some? {
      FirstSeenKeepsOrder(call.tags.value);
    }
  }

  /** Whole seconds up to a time. */
  predicate WholeSeconds(shown: int, t: int) {
    shown % 1_000_000_000 == 0 && shown <= t < shown + 1_000_000_000
  }

  /** What an event tells of the row committed with it. */
  predicate TellsOf(e: Event, row: Post) {
    && (e.kind == PostPublished <==> row.status == Published)
    && e.data.content == row.content && e.data.tags == row.tags && e.data.version == row.version
    && WholeSeconds(e.data.updated, row.updated)
    && match row.firstPublished
       case None => e.data.firstPublished == None
       case Some(t) => e.data.firstPublished.Some? && WholeSeconds(e.data.firstPublished.value, t)
  }

  lemma EventsTell(row: Post)
    ensures TellsOf(Event(KindOf(row.status), SnapshotOf(row)), row)
  {
  }

  /** Every committed event tells the fields of the very row committed with it. */
  lemma EventsTellTheirRow(s: State, actions: seq<Action>, i: nat)
    requires Init(s) && Trace(s, actions) && Disciplined(s, actions) && i < |After(s, actions).log|
    ensures var end := After(s, actions);
      var k := end.log[i].data.version - Row(s).version;
      0 < k < |end.commits| && TellsOf(end.log[i], end.commits[k].row)
  {
    EventsShowTheirRow(s, actions, i);
    var end := After(s, actions);
    EventsTell(end.commits[end.log[i].data.version - Row(s).version].row);
  }

  // ---------- the steps ----------

  /** The version a call's statement names: the call's own, else for a transition or delete the one it
      loaded, and for an update none. */
  function Named(call: Call, loaded: Post): int {
    if call.ifVersion != 0 then call.ifVersion else if call.Update? then 0 else loaded.version
  }

  predicate Mismatch(named: int, version: int) {
    named != 0 && (named != version || named < 0 || named > 0x7FFF_FFFF)
  }

  /** Where a stale row leaves a call: an unconditional transition or delete starts over, once. */
  function WhenStale(pc: Pc, version: int): Pc
    requires pc.Loaded?
  {
    if !pc.call.Update? && pc.call.ifVersion == 0 && !pc.retried then Started(pc.call, true)
    else Done(pc.call, Err(Stale(Named(pc.call, pc.loaded), version)))
  }

  /** How a save ends: over a missing row it is an insertion, refused for a taken slug alone; over a
      present one the version named is checked first, then the column's range, then the slug. */
  lemma SaveTells(s: State, p: Pid, now: int, slugTaken: bool)
    requires Enabled(s, Save(p, now, slugTaken))
    ensures var pc, s' := PcOf(s, p), Next(s, Save(p, now, slugTaken));
      var named, row := Named(pc.call, pc.loaded), Row(s);
      if !s.gone && Mismatch(named, row.version) then s'.pcs[p] == WhenStale(pc, row.version)
      else if !s.gone && row.version >= 0x7FFF_FFFF then s'.pcs[p] == Done(pc.call, Err(Unexpected))
      else if slugTaken then s'.pcs[p] == Done(pc.call, Err(AlreadyExists))
      else
        && s'.pcs[p].Staged? && s'.pcs[p].saved.version == pc.loaded.version + 1
        && s'.pending.Some? && s'.pending.value.Storing? && s'.pending.value.commit.guard == named
        && s'.pending.value.commit.row.version == if s.gone then pc.loaded.version else row.version + 1
  {
    var pc := PcOf(s, p);
    ChangedKeepsTheVersion(pc.call, pc.loaded, now);
    hide Changed;
  }

  /** How the other statements end: a load and a delete of a missing row find nothing, a delete checks
      the version it names, and a transition settles without a statement when the row it loaded has
      another version than the call names, or already the status. */
  lemma OtherStepsTell(s: State, p: Pid, call: Call)
    ensures Enabled(s, Begin(p, call)) ==> PcOf(Next(s, Begin(p, call)), p) == Started(call, false)
    ensures Enabled(s, Load(p)) ==>
      PcOf(Next(s, Load(p)), p) ==
        if s.gone then Done(PcOf(s, p).call, Err(NotFound))
        else Loaded(PcOf(s, p).call, PcOf(s, p).retried, Row(s))
    ensures Enabled(s, Remove(p)) ==>
      var pc, s' := PcOf(s, p), Next(s, Remove(p));
      var named := Named(pc.call, pc.loaded);
      if s.gone then s'.pcs[p] == Done(pc.call, Err(NotFound))
      else if Mismatch(named, Row(s).version) then s'.pcs[p] == WhenStale(pc, Row(s).version)
      else
        && s'.pcs[p] == Removed(pc.call, pc.loaded)
        && s'.pending == Some(Removing(p,
             Deletion(named, pc.loaded.version, pc.loaded.content.slug, pc.loaded.status == Published)))
    ensures PcOf(s, p).Loaded? && PcOf(s, p).call.Transition? && s.commits != [] ==>
      var mine, loaded := PcOf(s, p).call, PcOf(s, p).loaded;
      var other := mine.ifVersion != 0 && mine.ifVersion != loaded.version;
      && (Enabled(s, Settle(p)) <==> other || loaded.status == mine.target)
      && (Enabled(s, Settle(p)) ==>
            PcOf(Next(s, Settle(p)), p) ==
              Done(mine, if other then Err(Stale(mine.ifVersion, loaded.version)) else Ok(loaded)))
  {
  }

  // ---------- every run ----------

  /** The call made the post of a committed row, and tells the next version. */
  ghost predicate Made(call: Call, to: Post, commits: seq<Commit>) {
    exists k, now :: 0 <= k < |commits| && Edits(call, commits[k].row, now, to)
      && to.version == commits[k].row.version + 1
  }

  /** The same but for the version. */
  predicate SameFields(p: Post, q: Post) {
    p == q.(version := p.version)
  }

  ghost predicate IsCommittedAs(p: Post, commits: seq<Commit>) {
    exists k :: 0 <= k < |commits| && SameFields(commits[k].row, p)
  }

  /** What a caller is told when its call goes through. */
  ghost predicate Told(call: Call, told: Post, commits: seq<Commit>) {
    match call
    case Update(_, _, _) => Made(call, told, commits) && IsCommittedAs(told, commits)
    case Transition(target, _) =>
      || (Made(call, told, commits) && IsCommittedAs(told, commits))
      || (told.status == target && IsOldRow(told, commits))
    case Delete(_) => IsOldRow(told, commits)
  }

  ghost predicate StagedBy(s: State, p: Pid, call: Call, saved: Post) {
    && s.pending.Some? && s.pending.value.Storing? && s.pending.value.pid == p
    && SameFields(s.pending.value.commit.row, saved) && Made(call, saved, s.commits)
  }

  ghost predicate PcMakes(s: State, p: Pid, pc: Pc) {
    match pc
    case Loaded(_, _, loaded) => IsOldRow(loaded, s.commits)
    case Staged(call, saved) => StagedBy(s, p, call, saved)
    case Enqueued(call, saved) => StagedBy(s, p, call, saved)
    case Removed(call, loaded) =>
      call.Delete? && s.pending.Some? && s.pending.value.pid == p && IsOldRow(loaded, s.commits)
    case Cleared(call, loaded) =>
      call.Delete? && s.pending.Some? && s.pending.value.pid == p && IsOldRow(loaded, s.commits)
    case Done(call, result) => result.Ok? ==> Told(call, result.value, s.commits)
    case _ => true
  }

  /** A commit's row is some call's edit of an earlier row. */
  ghost predicate IsAnEdit(commits: seq<Commit>, i: nat)
    requires i < |commits|
  {
    exists call, to :: Made(call, to, commits[..i]) && SameFields(commits[i].row, to)
  }

  ghost predicate EditInv(s: State) {
    && s.commits != []
    && (forall p :: p in s.pcs ==> PcMakes(s, p, s.pcs[p]))
    && (forall i :: 0 < i < |s.commits| ==> IsAnEdit(s.commits, i))
  }

  lemma MadeStays(call: Call, to: Post, commits: seq<Commit>, c: Commit)
    requires Made(call, to, commits)
    ensures Made(call, to, commits + [c])
  {
    var k, now :| 0 <= k < |commits| && Edits(call, commits[k].row, now, to)
      && to.version == commits[k].row.version + 1;
    assert (commits + [c])[k] == commits[k];
  }

  lemma ToldStays(call: Call, told: Post, commits: seq<Commit>, c: Commit)
    requires Told(call, told, commits)
    ensures Told(call, told, commits + [c])
  {
    if IsOldRow(told, commits) {
      OldRowStaysOld(told, commits, c);
    }
    if Made(call, told, commits) && IsCommittedAs(told, commits) {
      hide Edits;
      MadeStays(call, told, commits, c);
      var k :| 0 <= k < |commits| && SameFields(commits[k].row, told);
      assert (commits + [c])[k] == commits[k];
    }
  }

  lemma SaveMakes(s: State, a: Action)
    requires EditInv(s) && a.Save? && Enabled(s, a)
    ensures EditInv(Next(s, a))
  {
    hide IsOldRow, Edits, Changed, Told, IsAnEdit;
    var s', pc := Next(s, a), s.pcs[a.pid];
    assert PcMakes(s, a.pid, pc);
    var changed, guard := Changed(pc.call, pc.loaded, a.now), Guard(pc.call, pc.loaded);
    if SaveRow(Found(s), changed, guard, a.slugTaken).Ok? {
      CallsEdit(pc.call, pc.loaded, a.now);
      LoadedIsEdited(pc.call, pc.loaded, a.now, Persisted(changed), s.commits);
    }
    forall p | p in s'.pcs ensures PcMakes(s', p, s'.pcs[p]) {
      assert p != a.pid ==> PcMakes(s, p, s.pcs[p]);
    }
  }

  lemma LoadedIsEdited(call: Call, loaded: Post, now: int, saved: Post, commits: seq<Commit>)
    requires IsOldRow(loaded, commits) && Edits(call, loaded, now, saved.(version := loaded.version))
    requires saved.version == loaded.version + 1
    ensures Made(call, saved, commits)
  {
    var k :| 0 <= k < |commits| && commits[k].row == loaded;
    assert Edits(call, commits[k].row, now, saved);
  }

  lemma CommitMakes(s: State, a: Action)
    requires EditInv(s) && a.End? && Enabled(s, a) && a.ok && !PcOf(s, a.pid).Cleared?
    ensures EditInv(Next(s, a))
  {
    hide IsOldRow, Edits, Told, Made, IsAnEdit;
    var s', pc, c := Next(s, a), s.pcs[a.pid], s.pending.value.commit;
    assert PcMakes(s, a.pid, pc);
    NewCommitIsAnEdit(pc.call, pc.saved, s.commits, c);
    forall p | p in s'.pcs ensures PcMakes(s', p, s'.pcs[p]) {
      if p != a.pid {
        assert PcMakes(s, p, s.pcs[p]);
        if s.pcs[p].Loaded? {
          OldRowStaysOld(s.pcs[p].loaded, s.commits, c);
        }
        if s.pcs[p].Done? && s.pcs[p].result.Ok? {
          ToldStays(s.pcs[p].call, s.pcs[p].result.value, s.commits, c);
        }
      }
    }
    forall i | 0 < i < |s'.commits| ensures IsAnEdit(s'.commits, i) {
      if i < |s.commits| {
        EditStays(s.commits, c, i);
      }
    }
  }

  lemma EditStays(commits: seq<Commit>, c: Commit, i: nat)
    requires i < |commits| && IsAnEdit(commits, i)
    ensures IsAnEdit(commits + [c], i)
  {
    hide Made;
    assert (commits + [c])[..i] == commits[..i] && (commits + [c])[i] == commits[i];
  }

  lemma NewCommitIsAnEdit(call: Call, saved: Post, commits: seq<Commit>, c: Commit)
    requires Made(call, saved, commits) && SameFields(c.row, saved)
    ensures IsAnEdit(commits + [c], |commits|) && Told(call, saved, commits + [c])
  {
    MadeStays(call, saved, commits, c);
    var longer := commits + [c];
    assert longer[|commits|] == c && longer[..|commits|] == commits;
    assert call.Delete? ==> !Made(call, saved, commits);
    hide Made, Edits;
    assert IsCommittedAs(saved, longer);
  }

  lemma OtherStepsMake(s: State, a: Action)
    requires EditInv(s) && Enabled(s, a) && !a.Save? && (a.End? ==> !a.ok || PcOf(s, a.pid).Cleared?)
    ensures EditInv(Next(s, a))
  {
    hide IsOldRow, Edits, Made, IsAnEdit, IsCommittedAs;
    var s' := Next(s, a);
    RowIsOld(s.commits);
    forall p | p in s'.pcs ensures PcMakes(s', p, s'.pcs[p]) {
      assert p in s.pcs ==> PcMakes(s, p, s.pcs[p]);
      assert a.pid in s.pcs ==> PcMakes(s, a.pid, s.pcs[a.pid]);
    }
  }

  lemma {:induction false} RunsMake(s: State, actions: seq<Action>)
    requires EditInv(s) && Trace(s, actions)
    ensures EditInv(After(s, actions))
    decreases |actions|
  {
    hide EditInv, Next, Enabled;
    if actions != [] {
      var a := actions[0];
      if a.Save? {
        SaveMakes(s, a);
      } else if a.End? && a.ok && !PcOf(s, a.pid).Cleared? {
        CommitMakes(s, a);
      } else {
        OtherStepsMake(s, a);
      }
      RunsMake(Next(s, a), actions[1..]);
    }
  }

  /** In every run, a caller whose update went through is told a committed row, but for its version,
      that holds exactly the content and tags the call gave, and the rest of a row that was loaded;
      one whose publish or unpublish did, a row that flips the status and no more. */
  lemma AnswersEditTheirLoad(s: State, actions: seq<Action>, p: Pid)
    requires Init(s) && Trace(s, actions)
    requires PcOf(After(s, actions), p).Done? && PcOf(After(s, actions), p).result.Ok?
    ensures var end := After(s, actions); var pc := PcOf(end, p);
      Told(pc.call, pc.result.value, end.commits)
  {
    RunsMake(s, actions);
    assert PcMakes(After(s, actions), p, PcOf(After(s, actions), p));
  }

  /** And every row committed is some call's edit of a row committed before it. */
  lemma CommitsEditAnEarlierRow(s: State, actions: seq<Action>, i: nat)
    requires Init(s) && Trace(s, actions) && 0 < i < |After(s, actions).commits|
    ensures var commits := After(s, actions).commits;
      exists call, k, now :: 0 <= k < i && Edits(call, commits[k].row, now, commits[i].row)
  {
    RunsMake(s, actions);
    hide Edits;
    var commits := After(s, actions).commits;
    assert IsAnEdit(commits, i);
    var call, to :| Made(call, to, commits[..i]) && SameFields(commits[i].row, to);
    var k, now :| 0 <= k < i && Edits(call, commits[..i][k].row, now, to);
    SameFieldsEdit(call, commits[k].row, now, to, commits[i].row);
  }

  lemma SameFieldsEdit(call: Call, from: Post, now: int, to: Post, row: Post)
    requires Edits(call, from, now, to) && SameFields(row, to)
    ensures Edits(call, from, now, row)
  {
  }
}
