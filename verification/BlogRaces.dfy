/** The blog's discipline is exact: the step that breaks it leads to a commit that breaks the row's
    history, and each way of breaking it is a run from a post at rest. */
module BlogRaces {
  import opened Basics
  import opened BlogStore
  import opened BlogProtocol

  // ---------- runs ----------

  lemma Prefixed(s: State, a: Action, rest: seq<Action>)
    requires Enabled(s, a) && Trace(Next(s, a), rest)
    ensures Trace(s, [a] + rest) && After(s, [a] + rest) == After(Next(s, a), rest)
    ensures Heeds(s, a) && Disciplined(Next(s, a), rest) ==> Disciplined(s, [a] + rest)
  {
    hide Heeds;
    assert ([a] + rest)[1..] == rest;
  }

  lemma NoSteps(s: State)
    ensures Trace(s, []) && After(s, []) == s && Disciplined(s, [])
  {
  }

  lemma {:induction false} TraceJoins(s: State, first: seq<Action>, second: seq<Action>)
    requires Trace(s, first) && Trace(After(s, first), second)
    ensures Trace(s, first + second) && After(s, first + second) == After(After(s, first), second)
    decreases |first|
  {
    hide Enabled, Next, Heeds;
    if first == [] {
      assert first + second == second;
    } else {
      TraceJoins(Next(s, first[0]), first[1..], second);
      assert first + second == [first[0]] + (first[1..] + second);
      Prefixed(s, first[0], first[1..] + second);
    }
  }

  /** A call begins and loads the row. */
  function Loads(p: Pid, call: Call): seq<Action> {
    [Begin(p, call)] + [Load(p)]
  }

  lemma CallLoads(s: State, p: Pid, call: Call)
    requires s.commits != [] && !s.gone && PcOf(s, p).Idle?
    ensures Trace(s, Loads(p, call)) && After(s, Loads(p, call)) == At(s, p, Loaded(call, false, Row(s)))
  {
    var s1 := At(s, p, Started(call, false));
    var s2 := At(s, p, Loaded(call, false, Row(s)));
    assert s1.pcs[p := Loaded(call, false, Row(s))] == s2.pcs;
    assert Next(s, Begin(p, call)) == s1 && Next(s1, Load(p)) == s2;
    NoSteps(s2);
    Prefixed(s1, Load(p), []);
    Prefixed(s, Begin(p, call), [Load(p)]);
    assert [Load(p)] + [] == [Load(p)];
  }

  /** A saved transition enqueues its event and commits. */
  function Finishes(p: Pid): seq<Action> {
    [Enqueue(p, true)] + [End(p, true)]
  }

  lemma StagedTransitionCommits(s: State, p: Pid, call: Call, saved: Post)
    requires s.commits != [] && s.pending.Some? && s.pending.value.Storing?
    requires call.Transition? && PcOf(s, p) == Staged(call, saved)
    ensures var c := s.pending.value.commit.(event := Some(Event(KindOf(call.target), SnapshotOf(saved))));
      && Trace(s, Finishes(p)) && Disciplined(s, Finishes(p))
      && After(s, Finishes(p)) ==
           At(s, p, Done(call, Ok(saved))).(
             pending := None, gone := false, commits := s.commits + [c], log := s.log + [c.event.value])
  {
    var c := s.pending.value.commit.(event := Some(Event(KindOf(call.target), SnapshotOf(saved))));
    var s2 := At(s, p, Enqueued(call, saved)).(pending := Some(s.pending.value.(commit := c)));
    var s3 := At(s, p, Done(call, Ok(saved))).(
      pending := None, gone := false, commits := s.commits + [c], log := s.log + [c.event.value]);
    assert s2.pcs[p := Done(call, Ok(saved))] == s3.pcs;
    assert Next(s, Enqueue(p, true)) == s2 && Next(s2, End(p, true)) == s3;
    assert Heeds(s, Enqueue(p, true)) && Heeds(s2, End(p, true));
    hide Next, Enabled, SnapshotOf, Heeds;
    NoSteps(s3);
    Prefixed(s2, End(p, true), []);
    assert [End(p, true)] + [] == [End(p, true)];
    Prefixed(s, Enqueue(p, true), [End(p, true)]);
  }

  lemma StagedUpdateCommits(s: State, p: Pid, call: Call, saved: Post)
    requires s.commits != [] && s.pending.Some? && s.pending.value.Storing? && s.pending.value.commit.event.None?
    requires call.Update? && PcOf(s, p) == Staged(call, saved)
    ensures Trace(s, [End(p, true)]) && Disciplined(s, [End(p, true)])
    ensures After(s, [End(p, true)]) ==
      At(s, p, Done(call, Ok(saved))).(
        pending := None, gone := false, commits := s.commits + [s.pending.value.commit])
  {
    var s2 := Next(s, End(p, true));
    assert Heeds(s, End(p, true));
    assert s2 == At(s, p, Done(call, Ok(saved))).(
      pending := None, gone := false, commits := s.commits + [s.pending.value.commit]);
    hide Next, Enabled, Heeds;
    NoSteps(s2);
    Prefixed(s, End(p, true), []);
    assert [End(p, true)] + [] == [End(p, true)];
  }

  // ---------- the discipline is exact ----------

  lemma ReinsertionBreaksHistory(commits: seq<Commit>, c: Commit)
    requires History(commits) && c.row.version <= commits[|commits| - 1].row.version
    ensures !History(commits + [c])
  {
    hide Follows;
    var longer := commits + [c];
    assert longer[0] == commits[0] && longer[|commits|] == c;
    assert commits[|commits| - 1].row.version == commits[0].row.version + |commits| - 1;
  }

  lemma UnlawfulSuccessorBreaksHistory(commits: seq<Commit>, c: Commit)
    requires History(commits) && !Follows(commits[|commits| - 1].row, c)
    ensures !History(commits + [c])
  {
    var longer := commits + [c];
    assert longer[|commits| - 1] == commits[|commits| - 1] && longer[|commits|] == c;
  }

  /** What an unheeding save stages. */
  lemma UnheedingSaveStages(s: State, a: Action)
    requires Inv(s) && Enabled(s, a) && !Heeds(s, a)
    ensures a.Save? && PcOf(s, a.pid).Loaded? && !PcOf(s, a.pid).call.Delete?
    ensures var pc, s' := PcOf(s, a.pid), Next(s, a);
      && s'.commits == s.commits && PcOf(s', a.pid) == Staged(pc.call, Persisted(Changed(pc.call, pc.loaded, a.now)))
      && s'.pending.Some? && s'.pending.value.Storing? && s'.pending.value.commit.event.None?
      && (s.gone ==> s'.pending.value.commit.row.version <= Row(s).version)
      && (!s.gone ==> pc.call.Update? && !Follows(Row(s), s'.pending.value.commit))
  {
    hide Follows, History, Alternates, Shows, IsOldRow, SaveRow, Changed, Answered, DeletesOldRow;
    var pc := s.pcs[a.pid];
    assert PcInv(s, a.pid, pc);
    var changed, guard := Changed(pc.call, pc.loaded, a.now), Guard(pc.call, pc.loaded);
    OldRowsAreNoNewer(s.commits, pc.loaded);
    ChangedKeepsTheVersion(pc.call, pc.loaded, a.now);
    SlugIsFree(Found(s), changed, guard, a.slugTaken);
    if s.gone {
      MissingRowIsInserted(changed, guard, a.slugTaken);
    } else {
      PublishedRowsAreDated(s.commits);
      UpdateFollowsIff(Row(s), pc.loaded, pc.call, a.now);
    }
  }

  /** Over a deleted row a save goes through if and only if its slug is free, at the version the
      caller holds. */
  lemma MissingRowIsInserted(p: Post, guard: int, slugTaken: bool)
    ensures SaveRow(None, p, guard, slugTaken).Ok? <==> !slugTaken
    ensures !slugTaken ==> SaveRow(None, p, guard, slugTaken) == Ok(p)
  {
  }

  lemma UnheedingSaveBreaksHistory(s: State, a: Action) returns (more: seq<Action>)
    requires Inv(s) && Enabled(s, a) && !Heeds(s, a)
    ensures Trace(Next(s, a), more) && Disciplined(Next(s, a), more)
    ensures !History(After(Next(s, a), more).commits)
  {
    UnheedingSaveStages(s, a);
    hide Next, Heeds, Follows, History, Alternates, Shows, Changed, PcInv;
    var pc, s' := PcOf(s, a.pid), Next(s, a);
    var saved := Persisted(Changed(pc.call, pc.loaded, a.now));
    var c := s'.pending.value.commit;
    if pc.call.Transition? {
      StagedTransitionCommits(s', a.pid, pc.call, saved);
      more := Finishes(a.pid);
      ReinsertionBreaksHistory(s.commits, c.(event := Some(Event(KindOf(pc.call.target), SnapshotOf(saved)))));
    } else {
      StagedUpdateCommits(s', a.pid, pc.call, saved);
      more := [End(a.pid, true)];
      if s.gone {
        ReinsertionBreaksHistory(s.commits, c);
      } else {
        UnlawfulSuccessorBreaksHistory(s.commits, c);
      }
    }
  }

  /** In every state the protocol keeps, a step heeds the discipline if and only if every run after
      it that heeds it commits a lawful history: versions that rise by one, publication and event
      together, a first publication time that stays. */
  lemma DisciplineIsExact(s: State, a: Action)
    requires Inv(s) && Enabled(s, a)
    ensures Heeds(s, a) <==>
      forall more :: Trace(Next(s, a), more) && Disciplined(Next(s, a), more) ==>
        History(After(Next(s, a), more).commits)
  {
    if Heeds(s, a) {
      StepKeeps(s, a);
      hide Next, Heeds, History, Enabled;
      forall more | Trace(Next(s, a), more) && Disciplined(Next(s, a), more)
        ensures History(After(Next(s, a), more).commits)
      {
        TraceKeeps(Next(s, a), more);
      }
    } else {
      var more := UnheedingSaveBreaksHistory(s, a);
      hide Next, Heeds, History, Enabled;
    }
  }

  // ---------- the races as runs ----------

  /** One post, no calls. */
  function Resting(post: Post): State {
    State([Commit(post, 0, None)], [], false, [], None, map[])
  }

  const PUBLISH := Transition(Published, 0)

  /** A loaded publish saves, enqueues and commits. */
  function Publishes(p: Pid, now: int): seq<Action> {
    [Save(p, now, false)] + Finishes(p)
  }

  lemma PublishCommits(s: State, p: Pid, loaded: Post, now: int)
    requires s.commits != [] && s.pending.None?
    requires PcOf(s, p) == Loaded(PUBLISH, false, loaded) && loaded.status.Draft?
    requires s.gone || (Row(s) == loaded && 1 <= loaded.version < MAX_INT32)
    ensures var saved := Persisted(Publish(loaded, now));
      var row := if s.gone then Publish(loaded, now) else saved;
      var event := Event(PostPublished, SnapshotOf(saved));
      && Trace(s, Publishes(p, now))
      && After(s, Publishes(p, now)) ==
           At(s, p, Done(PUBLISH, Ok(saved))).(
             gone := false, commits := s.commits + [Commit(row, loaded.version, Some(event))], log := s.log + [event])
  {
    var saved := Persisted(Publish(loaded, now));
    var row := if s.gone then Publish(loaded, now) else saved;
    var event := Event(PostPublished, SnapshotOf(saved));
    var s1 := At(s, p, Staged(PUBLISH, saved)).(pending := Some(Storing(p, Commit(row, loaded.version, None))));
    assert Next(s, Save(p, now, false)) == s1;
    hide SnapshotOf, Next, Enabled, Heeds;
    StagedTransitionCommits(s1, p, PUBLISH, saved);
    assert s1.pcs[p := Done(PUBLISH, Ok(saved))] == s.pcs[p := Done(PUBLISH, Ok(saved))];
    Prefixed(s, Save(p, now, false), Finishes(p));
  }

  /** A loaded delete runs its statement, enqueues and commits. */
  function Deletes(p: Pid): seq<Action> {
    [Remove(p)] + Finishes(p)
  }

  lemma DeleteCommits(s: State, p: Pid, call: Call, loaded: Post)
    requires s.commits != [] && s.pending.None? && !s.gone && call.Delete? && PcOf(s, p) == Loaded(call, false, loaded)
    requires Guard(call, loaded) == Row(s).version && 1 <= Row(s).version <= MAX_INT32
    ensures Trace(s, Deletes(p))
    ensures After(s, Deletes(p)) ==
      At(s, p, Done(call, Ok(loaded))).(
        gone := true, deletions := s.deletions + [DeletionOf(loaded, Row(s).version)])
  {
    var d := DeletionOf(loaded, Row(s).version);
    var s1 := At(s, p, Removed(call, loaded)).(pending := Some(Removing(p, d)));
    var s2 := At(s, p, Cleared(call, loaded)).(pending := Some(Removing(p, d)));
    var s3 := At(s, p, Done(call, Ok(loaded))).(gone := true, deletions := s.deletions + [d]);
    assert Next(s, Remove(p)) == s1;
    assert s1.pcs[p := Cleared(call, loaded)] == s2.pcs && s2.pcs[p := Done(call, Ok(loaded))] == s3.pcs;
    assert Next(s1, Enqueue(p, true)) == s2 && Next(s2, End(p, true)) == s3;
    hide Next, Enabled, Heeds;
    NoSteps(s3);
    Prefixed(s2, End(p, true), []);
    assert [End(p, true)] + [] == [End(p, true)];
    Prefixed(s1, Enqueue(p, true), [End(p, true)]);
    Prefixed(s, Remove(p), Finishes(p));
  }

  /** A loaded update saves and commits. */
  function Updates(p: Pid, now: int): seq<Action> {
    [Save(p, now, false)] + [End(p, true)]
  }

  lemma UpdateCommits(s: State, p: Pid, call: Call, loaded: Post, now: int)
    requires s.commits != [] && s.pending.None? && !s.gone && call.Update? && PcOf(s, p) == Loaded(call, false, loaded)
    requires (call.ifVersion == 0 || call.ifVersion == Row(s).version) && 1 <= Row(s).version < MAX_INT32
    ensures var changed := Changed(call, loaded, now);
      && Trace(s, Updates(p, now))
      && After(s, Updates(p, now)) ==
           At(s, p, Done(call, Ok(Persisted(changed)))).(
             commits := s.commits + [Commit(changed.(version := Row(s).version + 1), call.ifVersion, None)])
  {
    var changed := Changed(call, loaded, now);
    var c := Commit(changed.(version := Row(s).version + 1), call.ifVersion, None);
    var s1 := At(s, p, Staged(call, Persisted(changed))).(pending := Some(Storing(p, c)));
    assert Next(s, Save(p, now, false)) == s1;
    hide Next, Enabled, Heeds;
    StagedUpdateCommits(s1, p, call, Persisted(changed));
    assert s1.pcs[p := Done(call, Ok(Persisted(changed)))] == s.pcs[p := Done(call, Ok(Persisted(changed)))];
    Prefixed(s, Save(p, now, false), [End(p, true)]);
  }

  /** Two calls load a draft at rest. */
  lemma BothLoad(draft: Post, call: Call, other: Call)
    ensures Trace(Resting(draft), Loads(0, call) + Loads(1, other))
    ensures After(Resting(draft), Loads(0, call) + Loads(1, other)) ==
      Resting(draft).(pcs := map[0 := Loaded(call, false, draft), 1 := Loaded(other, false, draft)])
  {
    hide Trace, After, Enabled, Next, Loads, Heeds;
    var s0 := Resting(draft);
    CallLoads(s0, 0, call);
    var s1 := At(s0, 0, Loaded(call, false, draft));
    CallLoads(s1, 1, other);
    TraceJoins(s0, Loads(0, call), Loads(1, other));
  }

  /** A run with a publish and a delete that both loaded the draft: the delete commits, and then
      the publish's upsert brings the post back, at the version it was loaded with, while its event
      tells the next one. */
  lemma DeleteRaceBringsThePostBack(draft: Post, now: int) returns (actions: seq<Action>)
    requires draft.status.Draft? && 1 <= draft.version < MAX_INT32
    ensures Init(Resting(draft)) && Trace(Resting(draft), actions)
    ensures var end := After(Resting(draft), actions);
      && end.deletions == [DeletionOf(draft, draft.version)] && !end.gone && end.commits != []
      && Row(end) == Publish(draft, now) && Row(end).version == draft.version
      && end.log == [Event(PostPublished, SnapshotOf(Persisted(Row(end))))]
  {
    hide Trace, After, Enabled, Next, SnapshotOf, Deletes, Publishes, Loads, Heeds;
    BothLoad(draft, PUBLISH, Delete(0));
    actions := Loads(0, PUBLISH) + Loads(1, Delete(0));
    var s2 := After(Resting(draft), actions);
    DeleteCommits(s2, 1, Delete(0), draft);
    TraceJoins(Resting(draft), actions, Deletes(1));
    actions := actions + Deletes(1);
    var s3 := After(Resting(draft), actions);
    assert s3.deletions == [DeletionOf(draft, draft.version)];
    PublishCommits(s3, 0, draft, now);
    TraceJoins(Resting(draft), actions, Publishes(0, now));
    actions := actions + Publishes(0, now);
  }

  /** A run with two publishes of the draft: one commits, a delete commits, and the other's upsert
      brings the post back and tells its publication a second time. */
  lemma DeleteRaceRepeatsAnEvent(draft: Post, now: int, later: int) returns (actions: seq<Action>)
    requires draft.status.Draft? && 1 <= draft.version < MAX_INT32
    ensures Init(Resting(draft)) && Trace(Resting(draft), actions)
    ensures var end := After(Resting(draft), actions);
      && end.commits != [] && |end.log| == 2 && end.log[0].kind == end.log[1].kind == PostPublished
      && !Alternates(end.log, draft.status, Row(end).status)
  {
    hide Trace, After, Enabled, Next, SnapshotOf, Deletes, Publishes, Loads, Heeds;
    var published := Persisted(Publish(draft, now));
    BothLoad(draft, PUBLISH, PUBLISH);
    actions := Loads(0, PUBLISH) + Loads(1, PUBLISH);
    var s2 := After(Resting(draft), actions);
    PublishCommits(s2, 1, draft, now);
    TraceJoins(Resting(draft), actions, Publishes(1, now));
    actions := actions + Publishes(1, now);
    var s3 := After(Resting(draft), actions);
    assert Row(s3) == published && PcOf(s3, 0) == Loaded(PUBLISH, false, draft);
    CallLoads(s3, 2, Delete(0));
    TraceJoins(Resting(draft), actions, Loads(2, Delete(0)));
    actions := actions + Loads(2, Delete(0));
    var s4 := After(Resting(draft), actions);
    DeleteCommits(s4, 2, Delete(0), published);
    TraceJoins(Resting(draft), actions, Deletes(2));
    actions := actions + Deletes(2);
    var s5 := After(Resting(draft), actions);
    PublishCommits(s5, 0, draft, later);
    TraceJoins(Resting(draft), actions, Publishes(0, later));
    actions := actions + Publishes(0, later);
    RepeatedEventsDoNotAlternate(After(Resting(draft), actions).log, draft.status, Published);
  }

  lemma RepeatedEventsDoNotAlternate(log: seq<Event>, first: Status, last: Status)
    requires |log| == 2 && log[0].kind == log[1].kind
    ensures !Alternates(log, first, last)
  {
    assert log[1].kind == log[0].kind;
  }

  /** A run with an update, of content, tags or both, that names no version, or guesses the next: it
      loads the draft, someone publishes, and the update puts the draft back without an event, first
      publication time and all. */
  lemma UnseenPublicationIsTakenBack(
    draft: Post, content: Option<Content>, tags: Option<seq<nat>>, now: int, ifVersion: int)
    returns (actions: seq<Action>)
    requires draft.status.Draft? && 1 <= draft.version < MAX_INT32 - 1
    requires ifVersion == 0 || ifVersion == draft.version + 1
    ensures Init(Resting(draft)) && Trace(Resting(draft), actions)
    ensures var end := After(Resting(draft), actions);
      && end.commits != [] && Row(end).status.Draft? && Row(end).version == draft.version + 2
      && Row(end).firstPublished == draft.firstPublished
      && end.log == [Event(PostPublished, SnapshotOf(Persisted(Publish(draft, now))))]
      && !Alternates(end.log, draft.status, Row(end).status)
  {
    hide Trace, After, Enabled, Next, SnapshotOf, Updates, Publishes, Loads, Heeds;
    var update := Update(content, tags, ifVersion);
    BothLoad(draft, update, PUBLISH);
    actions := Loads(0, update) + Loads(1, PUBLISH);
    var s2 := After(Resting(draft), actions);
    PublishCommits(s2, 1, draft, now);
    TraceJoins(Resting(draft), actions, Publishes(1, now));
    actions := actions + Publishes(1, now);
    var s3 := After(Resting(draft), actions);
    assert PcOf(s3, 0) == Loaded(update, false, draft);
    UpdateCommits(s3, 0, update, draft, now);
    TraceJoins(Resting(draft), actions, Updates(0, now));
    actions := actions + Updates(0, now);
  }

  /** A run with a delete that guesses the next version: it loads the draft, someone publishes, and
      the delete of the published post tells that a draft was deleted. */
  lemma GuessedDeleteTellsAnOldRow(draft: Post, now: int) returns (actions: seq<Action>)
    requires draft.status.Draft? && 1 <= draft.version < MAX_INT32
    ensures Init(Resting(draft)) && Trace(Resting(draft), actions)
    ensures var end := After(Resting(draft), actions);
      && end.commits != [] && end.gone && Row(end).status.Published?
      && end.deletions == [DeletionOf(draft, draft.version + 1)] && !end.deletions[0].wasPublished
  {
    hide Trace, After, Enabled, Next, SnapshotOf, Deletes, Publishes, Loads, Heeds;
    var delete := Delete(draft.version + 1);
    BothLoad(draft, delete, PUBLISH);
    actions := Loads(0, delete) + Loads(1, PUBLISH);
    var s2 := After(Resting(draft), actions);
    PublishCommits(s2, 1, draft, now);
    TraceJoins(Resting(draft), actions, Publishes(1, now));
    actions := actions + Publishes(1, now);
    var s3 := After(Resting(draft), actions);
    assert PcOf(s3, 0) == Loaded(delete, false, draft) && Row(s3) == Persisted(Publish(draft, now));
    DeleteCommits(s3, 0, delete, draft);
    TraceJoins(Resting(draft), actions, Deletes(0));
    actions := actions + Deletes(0);
  }
}
