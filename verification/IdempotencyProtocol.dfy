/** createPost requests sharing the idempotency store: reserve, create, store the response,
    release. Any number of requests, on any keys, interleave at these steps, and a request may
    leave after its create without storing. */
module IdempotencyProtocol {
  import opened Basics
  import opened IdempotencyStore

  type Pid = nat

  /** `Finishing` is the deferred release, after the response was stored, the create failed, or the
      response of the post made could not be built. */
  datatype Pc =
    | Idle
    | Holding(key: Key, body: string)
    | Made(key: Key, body: string, resp: Response)
    | Finishing(key: Key, body: string, stored: bool)

  datatype Create = Create(key: Key, body: string, resp: Response)

  datatype Reply = Reply(key: Key, body: string, outcome: Outcome)

  /** `creates` lists the posts made, `replies` what each reservation was told. */
  datatype State = State(es: seq<Entry>, limit: int, pcs: map<Pid, Pc>, creates: seq<Create>, replies: seq<Reply>)

  datatype Action =
    | Reserve(pid: Pid, key: Key, body: string, swept: int, expires: int)
    | Make(pid: Pid, resp: Option<Response>)
    | StoreResponse(pid: Pid, expires: int)
    | Abandon(pid: Pid)
    | Release(pid: Pid)

  function PcOf(s: State, p: Pid): Pc {
    if p in s.pcs then s.pcs[p] else Idle
  }

  function At(s: State, p: Pid, pc: Pc): State {
    s.(pcs := s.pcs[p := pc])
  }

  predicate Enabled(s: State, a: Action) {
    match a
    case Reserve(p, _, _, _, _) => PcOf(s, p).Idle?
    case Make(p, _) => PcOf(s, p).Holding?
    case StoreResponse(p, _) => PcOf(s, p).Made?
    case Abandon(p) => PcOf(s, p).Made?
    case Release(p) => PcOf(s, p).Finishing?
  }

  function Next(s: State, a: Action): State
    requires Enabled(s, a)
  {
    match a
    case Reserve(p, k, body, swept, expires) =>
      var live := Swept(s.es, swept);
      var outcome := Answer(Lookup(live, k), body);
      At(s, p, if outcome.Claimed? then Holding(k, body) else Idle).(
        es := Reserved(live, k, body, expires, s.limit),
        replies := s.replies + [Reply(k, body, outcome)])
    case Make(p, resp) =>
      var pc := PcOf(s, p);
      if resp.None? then At(s, p, Finishing(pc.key, pc.body, false))
      else At(s, p, Made(pc.key, pc.body, resp.value)).(creates := s.creates + [Create(pc.key, pc.body, resp.value)])
    case StoreResponse(p, expires) =>
      var pc := PcOf(s, p);
      At(s, p, Finishing(pc.key, pc.body, true)).(
        es := Stored(s.es, pc.key, Record(pc.body, pc.resp, expires, false), s.limit))
    case Abandon(p) => At(s, p, Finishing(PcOf(s, p).key, PcOf(s, p).body, false))
    case Release(p) => At(s, p, Idle).(es := Released(s.es, PcOf(s, p).key))
  }

  ghost predicate Trace(s: State, actions: seq<Action>)
    decreases |actions|
  {
    actions == [] || (Enabled(s, actions[0]) && Trace(Next(s, actions[0]), actions[1..]))
  }

  ghost function After(s: State, actions: seq<Action>): State
    requires Trace(s, actions)
    decreases |actions|
  {
    if actions == [] then s else After(Next(s, actions[0]), actions[1..])
  }

  /** No step evicts or expires the key's entry, a sweep leaves it where it was, and an insertion
      or another key's step does not push it out; and no request leaves a post it made for the key
      unstored. */
  predicate Spares(s: State, a: Action, k: Key)
    requires Enabled(s, a)
  {
    && (a.Abandon? ==> PcOf(s, a.pid).key != k)
    && (Lookup(s.es, k).Some? ==>
          && (a.Reserve? ==> Lookup(Swept(s.es, a.swept), k).Some?)
          && (!(a.Release? && PcOf(s, a.pid).key == k) ==> Lookup(Next(s, a).es, k).Some?))
  }

  ghost predicate Undisturbed(s: State, actions: seq<Action>, k: Key)
    requires Trace(s, actions)
    decreases |actions|
  {
    actions != [] ==> Spares(s, actions[0], k) && Undisturbed(Next(s, actions[0]), actions[1..], k)
  }

  // ---------- the table ----------

  lemma {:induction false} LookupAppended(es: seq<Entry>, e: Entry, k: Key)
    ensures Lookup(es + [e], k) ==
      if Lookup(es, k).Some? then Lookup(es, k) else if e.key == k then Some(e.rec) else None
  {
    if es == [] {
      assert es + [e] == [e];
    } else {
      assert (es + [e])[1..] == es[1..] + [e];
      LookupAppended(es[1..], e, k);
    }
  }

  lemma {:induction false} LookupRemoved(es: seq<Entry>, gone: Key, k: Key)
    ensures Lookup(Removed(es, gone), k) == if k == gone then None else Lookup(es, k)
    ensures forall e :: e in Removed(es, gone) ==> e in es && e.key != gone
    ensures DistinctKeys(es) ==> DistinctKeys(Removed(es, gone))
  {
    if es != [] {
      LookupRemoved(es[1..], gone, k);
    }
  }

  lemma LookupInSuffix(es: seq<Entry>, n: nat, k: Key)
    requires DistinctKeys(es) && n <= |es|
    ensures DistinctKeys(es[n..])
    ensures Lookup(es[n..], k).Some? ==> Lookup(es[n..], k) == Lookup(es, k)
  {
    LookupFinds(es, k);
    LookupFinds(es[n..], k);
    if Lookup(es[n..], k).Some? {
      var i :| 0 <= i < |es[n..]| && es[n..][i].key == k;
      assert es[n + i].key == k;
    }
  }

  lemma LookupSwept(es: seq<Entry>, now: int, k: Key)
    requires DistinctKeys(es)
    ensures DistinctKeys(Swept(es, now))
    ensures Lookup(Swept(es, now), k).Some? ==> Lookup(Swept(es, now), k) == Lookup(es, k)
  {
    var n := SweptIsASuffix(es, now);
    LookupInSuffix(es, n, k);
  }

  lemma LookupNewest(es: seq<Entry>, e: Entry, limit: int, k: Key)
    requires DistinctKeys(es) && Lookup(es, e.key).None?
    ensures DistinctKeys(Newest(es + [e], limit))
    ensures Lookup(Newest(es + [e], limit), e.key) == Some(e.rec)
    ensures k != e.key && Lookup(Newest(es + [e], limit), k).Some? ==>
      Lookup(Newest(es + [e], limit), k) == Lookup(es, k)
  {
    LookupFinds(es, e.key);
    var all := es + [e];
    assert DistinctKeys(all);
    LookupAppended(es, e, k);
    LookupAppended(es, e, e.key);
    var n := if limit > 0 && |all| > limit then |all| - limit else 0;
    assert Newest(all, limit) == all[n..];
    LookupInSuffix(all, n, k);
    LookupInSuffix(all, n, e.key);
    LookupFinds(all[n..], e.key);
    assert all[n..][|all| - n - 1] == e;
  }

  // ---------- what every step keeps for one key ----------

  /** The request is between its claim on the key and its release of an unfinished one. */
  predicate Works(pc: Pc, k: Key) {
    match pc
    case Idle => false
    case Holding(key, _) => key == k
    case Made(key, _, _) => key == k
    case Finishing(key, _, stored) => key == k && !stored
  }

  /** Works, or has yet to run its deferred release. */
  predicate Involved(pc: Pc, k: Key) {
    !pc.Idle? && pc.key == k
  }

  ghost predicate NoneWorks(s: State, k: Key) {
    forall p :: p in s.pcs ==> !Works(s.pcs[p], k)
  }

  ghost predicate NoneInvolved(s: State, k: Key) {
    forall p :: p in s.pcs ==> !Involved(s.pcs[p], k)
  }

  ghost predicate OnlyWorks(s: State, p: Pid, k: Key) {
    p in s.pcs && Works(s.pcs[p], k) && forall q :: q in s.pcs && q != p ==> !Involved(s.pcs[q], k)
  }

  ghost predicate NoCreate(s: State, k: Key) {
    forall i :: 0 <= i < |s.creates| ==> s.creates[i].key != k
  }

  ghost predicate OneCreate(s: State, k: Key, body: string, resp: Response) {
    && Create(k, body, resp) in s.creates
    && (forall i :: 0 <= i < |s.creates| && s.creates[i].key == k ==> s.creates[i] == Create(k, body, resp))
    && (forall i, j :: 0 <= i < j < |s.creates| && s.creates[i].key == k ==> s.creates[j].key != k)
  }

  /** One request owns a pending entry, and has created at most the post it is about to store; a
      finished entry is owned by no one and holds the one post that was created. */
  ghost predicate KeyInv(s: State, k: Key) {
    match Lookup(s.es, k)
    case None => NoneInvolved(s, k) && NoCreate(s, k)
    case Some(rec) =>
      if rec.pending then
        exists p :: OnlyWorks(s, p, k) && s.pcs[p].body == rec.body &&
                    if s.pcs[p].Made? then OneCreate(s, k, rec.body, s.pcs[p].resp) else NoCreate(s, k)
      else NoneWorks(s, k) && OneCreate(s, k, rec.body, rec.resp)
  }

  ghost predicate RepliesInv(s: State, k: Key) {
    forall i :: 0 <= i < |s.replies| && s.replies[i].key == k && s.replies[i].outcome.Replay? ==>
      Create(k, s.replies[i].body, s.replies[i].outcome.resp) in s.creates
  }

  ghost predicate Inv(s: State, k: Key) {
    DistinctKeys(s.es) && KeyInv(s, k) && RepliesInv(s, k)
  }

  ghost predicate Init(s: State, k: Key) {
    && DistinctKeys(s.es) && Lookup(s.es, k).None?
    && NoneInvolved(s, k) && NoCreate(s, k)
    && (forall i :: 0 <= i < |s.replies| ==> s.replies[i].key != k)
  }

  // ---------- one step ----------

  /** A step that leaves the key's entry, its workers and its posts as they were. */
  lemma ElsewhereKeeps(s: State, s': State, p: Pid, pc: Pc, k: Key)
    requires KeyInv(s, k)
    requires s'.pcs == s.pcs[p := pc] && Lookup(s'.es, k) == Lookup(s.es, k) && s'.creates == s.creates
    requires !Works(pc, k) && !Works(PcOf(s, p), k) && (Involved(pc, k) ==> Involved(PcOf(s, p), k))
    ensures KeyInv(s', k)
  {
    assert NoneWorks(s, k) ==> NoneWorks(s', k);
    assert NoneInvolved(s, k) ==> NoneInvolved(s', k);
    if Lookup(s.es, k).Some? && Lookup(s.es, k).value.pending {
      var rec := Lookup(s.es, k).value;
      var q :| OnlyWorks(s, q, k) && s.pcs[q].body == rec.body &&
               if s.pcs[q].Made? then OneCreate(s, k, rec.body, s.pcs[q].resp) else NoCreate(s, k);
      assert OnlyWorks(s', q, k);
    }
  }

  lemma ReserveKeeps(s: State, a: Action, k: Key)
    requires Inv(s, k) && a.Reserve? && Enabled(s, a) && Spares(s, a, k)
    ensures Inv(Next(s, a), k)
  {
    var s' := Next(s, a);
    var live := Swept(s.es, a.swept);
    LookupSwept(s.es, a.swept, k);
    LookupSwept(s.es, a.swept, a.key);
    assert Lookup(live, k) == Lookup(s.es, k);
    var e := Entry(a.key, Record(a.body, NO_RESPONSE, a.expires, true));
    if Lookup(live, a.key).None? {
      LookupNewest(live, e, s.limit, k);
    }
    if a.key != k || Lookup(s.es, k).Some? {
      ElsewhereKeeps(s, s', a.pid, s'.pcs[a.pid], k);
    } else {
      assert OnlyWorks(s', a.pid, k);
    }
    ReplyIsBacked(s, a, k);
  }

  lemma ReplyIsBacked(s: State, a: Action, k: Key)
    requires Inv(s, k) && a.Reserve? && Enabled(s, a)
    requires Lookup(Swept(s.es, a.swept), k) == Lookup(s.es, k)
    ensures RepliesInv(Next(s, a), k)
  {
    var s' := Next(s, a);
    forall i | 0 <= i < |s'.replies| && s'.replies[i].key == k && s'.replies[i].outcome.Replay?
      ensures Create(k, s'.replies[i].body, s'.replies[i].outcome.resp) in s'.creates
    {
      if i < |s.replies| {
        assert s'.replies[i] == s.replies[i];
      }
    }
  }

  /** The one request at work on a key is the one that owns its pending entry. */
  lemma WorkerOwns(s: State, p: Pid, k: Key)
    requires KeyInv(s, k) && p in s.pcs && Works(s.pcs[p], k)
    ensures Lookup(s.es, k).Some? && Lookup(s.es, k).value.pending && OnlyWorks(s, p, k)
    ensures s.pcs[p].body == Lookup(s.es, k).value.body
    ensures if s.pcs[p].Made? then OneCreate(s, k, s.pcs[p].body, s.pcs[p].resp) else NoCreate(s, k)
  {
  }

  lemma CreatesGrow(s: State, s': State, c: Create, k: Key)
    requires s'.creates == s.creates + [c]
    ensures RepliesInv(s, k) && s'.replies == s.replies ==> RepliesInv(s', k)
    ensures c.key == k && NoCreate(s, k) ==> OneCreate(s', k, c.body, c.resp)
    ensures c.key != k && NoCreate(s, k) ==> NoCreate(s', k)
    ensures forall body, resp :: c.key != k && OneCreate(s, k, body, resp) ==> OneCreate(s', k, body, resp)
  {
    assert s'.creates[|s.creates|] == c;
    forall x | x in s.creates
      ensures x in s'.creates
    {
    }
  }

  lemma MakeKeeps(s: State, a: Action, k: Key)
    requires Inv(s, k) && a.Make? && Enabled(s, a)
    ensures Inv(Next(s, a), k)
  {
    hide OneCreate, NoCreate;
    var s' := Next(s, a);
    var pc := s.pcs[a.pid];
    if a.resp.Some? {
      CreatesGrow(s, s', Create(pc.key, pc.body, a.resp.value), k);
    } else {
      SameCreates(s, s', k);
    }
    if pc.key == k {
      WorkerOwns(s, a.pid, k);
      assert OnlyWorks(s', a.pid, k);
    } else {
      OthersStay(s, s', a.pid, k);
    }
  }

  lemma SameCreates(s: State, s': State, k: Key)
    requires s'.creates == s.creates
    ensures NoCreate(s, k) ==> NoCreate(s', k)
    ensures forall body, resp :: OneCreate(s, k, body, resp) ==> OneCreate(s', k, body, resp)
    ensures RepliesInv(s, k) && s'.replies == s.replies ==> RepliesInv(s', k)
  {
  }

  /** Another key's request moves on: who works on this key does not change. */
  lemma OthersStay(s: State, s': State, p: Pid, k: Key)
    requires p in s'.pcs && s'.pcs == s.pcs[p := s'.pcs[p]]
    requires !Involved(s'.pcs[p], k) && !Involved(PcOf(s, p), k)
    ensures NoneWorks(s, k) ==> NoneWorks(s', k)
    ensures NoneInvolved(s, k) ==> NoneInvolved(s', k)
    ensures forall q :: OnlyWorks(s, q, k) ==> OnlyWorks(s', q, k) && s'.pcs[q] == s.pcs[q]
  {
  }

  lemma StoreKeeps(s: State, a: Action, k: Key)
    requires Inv(s, k) && a.StoreResponse? && Enabled(s, a) && Spares(s, a, k)
    ensures Inv(Next(s, a), k)
  {
    var s' := Next(s, a);
    var pc := s.pcs[a.pid];
    var rec := Record(pc.body, pc.resp, a.expires, false);
    StoredLookup(s.es, pc.key, rec, s.limit, k);
    SameCreates(s, s', k);
    if pc.key == k {
      WorkerOwns(s, a.pid, k);
      assert NoneWorks(s', k);
      assert OneCreate(s', k, pc.body, pc.resp);
    } else {
      assert Lookup(s'.es, k) == Lookup(s.es, k);
      ElsewhereKeeps(s, s', a.pid, s'.pcs[a.pid], k);
    }
  }

  lemma StoredLookup(es: seq<Entry>, key: Key, rec: Record, limit: int, k: Key)
    requires DistinctKeys(es)
    ensures DistinctKeys(Stored(es, key, rec, limit))
    ensures Lookup(Stored(es, key, rec, limit), key) == Some(rec)
    ensures k != key && Lookup(Stored(es, key, rec, limit), k).Some? ==>
      Lookup(Stored(es, key, rec, limit), k) == Lookup(es, k)
  {
    if Lookup(es, key).Some? {
      var rest := Removed(es, key);
      LookupRemoved(es, key, k);
      LookupRemoved(es, key, key);
      LookupAppended(rest, Entry(key, rec), k);
      LookupAppended(rest, Entry(key, rec), key);
      assert DistinctKeys(rest + [Entry(key, rec)]);
    } else {
      LookupNewest(es, Entry(key, rec), limit, k);
    }
  }

  lemma ReleaseKeeps(s: State, a: Action, k: Key)
    requires Inv(s, k) && a.Release? && Enabled(s, a)
    ensures Inv(Next(s, a), k)
  {
    var s' := Next(s, a);
    var pc := s.pcs[a.pid];
    LookupRemoved(s.es, pc.key, k);
    SameCreates(s, s', k);
    if pc.key == k && !pc.stored {
      WorkerOwns(s, a.pid, k);
      assert NoneWorks(s', k);
    } else {
      ElsewhereKeeps(s, s', a.pid, Idle, k);
    }
  }

  lemma AbandonKeeps(s: State, a: Action, k: Key)
    requires Inv(s, k) && a.Abandon? && Enabled(s, a) && Spares(s, a, k)
    ensures Inv(Next(s, a), k)
  {
    var s' := Next(s, a);
    SameCreates(s, s', k);
    ElsewhereKeeps(s, s', a.pid, s'.pcs[a.pid], k);
  }

  lemma StepKeeps(s: State, a: Action, k: Key)
    requires Inv(s, k) && Enabled(s, a) && Spares(s, a, k)
    ensures Inv(Next(s, a), k)
  {
    hide Inv, Next, Spares;
    match a
    case Reserve(_, _, _, _, _) => ReserveKeeps(s, a, k);
    case Make(_, _) => MakeKeeps(s, a, k);
    case StoreResponse(_, _) => StoreKeeps(s, a, k);
    case Abandon(_) => AbandonKeeps(s, a, k);
    case Release(_) => ReleaseKeeps(s, a, k);
  }

  lemma {:induction false} TraceKeeps(s: State, actions: seq<Action>, k: Key)
    requires Inv(s, k) && Trace(s, actions) && Undisturbed(s, actions, k)
    ensures Inv(After(s, actions), k)
    decreases |actions|
  {
    hide Inv, Next, Spares, Enabled;
    if actions != [] {
      StepKeeps(s, actions[0], k);
      TraceKeeps(Next(s, actions[0]), actions[1..], k);
    }
  }

  // ---------- the promises ----------

  /** While the key's entry is neither evicted nor expired, and every post made for it is stored, its
      requests make at most one post. */
  lemma AtMostOneCreate(s: State, actions: seq<Action>, k: Key, i: nat, j: nat)
    requires Init(s, k) && Trace(s, actions) && Undisturbed(s, actions, k)
    requires i < j < |After(s, actions).creates| && After(s, actions).creates[i].key == k
    ensures After(s, actions).creates[j].key != k
  {
    TraceKeeps(s, actions, k);
    OneCreateAtMost(After(s, actions), k);
  }

  lemma OneCreateAtMost(s: State, k: Key)
    requires KeyInv(s, k)
    ensures NoCreate(s, k) || exists body, resp :: OneCreate(s, k, body, resp)
  {
    if Lookup(s.es, k).Some? {
      var rec := Lookup(s.es, k).value;
      if rec.pending {
        var p :| OnlyWorks(s, p, k) && s.pcs[p].body == rec.body &&
                 if s.pcs[p].Made? then OneCreate(s, k, rec.body, s.pcs[p].resp) else NoCreate(s, k);
        assert s.pcs[p].Made? ==> OneCreate(s, k, rec.body, s.pcs[p].resp);
      } else {
        assert OneCreate(s, k, rec.body, rec.resp);
      }
    }
  }

  /** Every replayed answer is the answer of the post its key really made, for the same body. */
  lemma ReplaysAreExact(s: State, actions: seq<Action>, k: Key, i: nat)
    requires Init(s, k) && Trace(s, actions) && Undisturbed(s, actions, k)
    requires i < |After(s, actions).replies| && After(s, actions).replies[i].key == k
    requires After(s, actions).replies[i].outcome.Replay?
    ensures var r := After(s, actions).replies[i]; Create(k, r.body, r.outcome.resp) in After(s, actions).creates
  {
    TraceKeeps(s, actions, k);
  }

  /** What the next request on the key is told, for as long as its entry stands. After the post
      was made: the same body gets that post's answer, or "in progress" until it is stored, and
      another body conflicts. Before it: a claim, if no request is at work on the key. */
  lemma NextRequestIsTold(s: State, actions: seq<Action>, k: Key, body: string, swept: int)
    requires Init(s, k) && Trace(s, actions) && Undisturbed(s, actions, k)
    requires var end := After(s, actions); Lookup(end.es, k).Some? ==> Lookup(Swept(end.es, swept), k).Some?
    ensures var end := After(s, actions);
            var told := Answer(Lookup(Swept(end.es, swept), k), body);
            && (told.Claimed? <==> NoneInvolved(end, k) && NoCreate(end, k))
            && (forall c :: c in end.creates && c.key == k ==>
                  if c.body != body then told == Conflict
                  else if NoneWorks(end, k) then told == Replay(c.resp) else told == InProgress)
  {
    TraceKeeps(s, actions, k);
    var end := After(s, actions);
    LookupSwept(end.es, swept, k);
    assert Lookup(Swept(end.es, swept), k) == Lookup(end.es, k);
    if Lookup(end.es, k).Some? {
      var rec := Lookup(end.es, k).value;
      if rec.pending {
        var p :| OnlyWorks(end, p, k) && end.pcs[p].body == rec.body &&
                 if end.pcs[p].Made? then OneCreate(end, k, rec.body, end.pcs[p].resp) else NoCreate(end, k);
      }
    }
  }

  lemma Prefixed(s: State, a: Action, rest: seq<Action>)
    requires Enabled(s, a) && Trace(Next(s, a), rest)
    ensures Trace(s, [a] + rest) && After(s, [a] + rest) == After(Next(s, a), rest)
  {
    assert ([a] + rest)[1..] == rest;
  }

  /** An eviction is enough to lose the promise: in a table of one, another key pushes a pending
      reservation out, and a retry of the first request makes a second post. */
  lemma EvictionAllowsASecondCreate(k: Key, other: Key, resp: Response) returns (s: State, actions: seq<Action>)
    requires k != other
    ensures Init(s, k) && Trace(s, actions)
    ensures var end := After(s, actions); |end.creates| == 2 && end.creates[0].key == k && end.creates[1].key == k
  {
    hide Trace, After;
    s := State([], 1, map[], [], []);
    var mine, theirs := Entry(k, Record("", NO_RESPONSE, 9, true)), Entry(other, Record("", NO_RESPONSE, 9, true));
    var first, push, again := Reserve(0, k, "", 0, 9), Reserve(1, other, "", 0, 9), Reserve(2, k, "", 0, 9);
    var s1 := Next(s, first);
    assert s1.es == [mine];
    var s2 := Next(s1, push);
    assert Swept([mine], 0) == [mine] && Lookup([mine], other).None?;
    assert [mine] + [theirs] == [mine, theirs] && [mine, theirs][1..] == [theirs];
    assert s2.es == [theirs];
    var s3 := Next(s2, again);
    assert Swept([theirs], 0) == [theirs] && Lookup([theirs], k).None?;
    TwoHoldersMakeTwo(s3, k, resp);
    actions := [Make(0, Some(resp)), Make(2, Some(resp))];
    Prefixed(s2, again, actions);
    actions := [again] + actions;
    Prefixed(s1, push, actions);
    actions := [push] + actions;
    Prefixed(s, first, actions);
    actions := [first] + actions;
  }

  lemma TwoHoldersMakeTwo(s: State, k: Key, resp: Response)
    requires PcOf(s, 0) == PcOf(s, 2) == Holding(k, "") && s.creates == []
    ensures Trace(s, [Make(0, Some(resp)), Make(2, Some(resp))])
    ensures After(s, [Make(0, Some(resp)), Make(2, Some(resp))]).creates == [Create(k, "", resp), Create(k, "", resp)]
  {
    var s1 := Next(s, Make(0, Some(resp)));
    Prefixed(s1, Make(2, Some(resp)), []);
    Prefixed(s, Make(0, Some(resp)), [Make(2, Some(resp))]);
    assert [Make(0, Some(resp))] + [Make(2, Some(resp))] == [Make(0, Some(resp)), Make(2, Some(resp))];
  }
  // ---------- losing the entry is what loses the promise ----------

  function PostsOf(creates: seq<Create>, k: Key): nat {
    if creates == [] then 0
    else PostsOf(creates[..|creates| - 1], k) + if creates[|creates| - 1].key == k then 1 else 0
  }

  lemma {:induction false} PostsAreFew(creates: seq<Create>, k: Key)
    requires forall i, j :: 0 <= i < j < |creates| && creates[i].key == k ==> creates[j].key != k
    ensures PostsOf(creates, k) <= 1
    ensures (forall i :: 0 <= i < |creates| ==> creates[i].key != k) ==> PostsOf(creates, k) == 0
  {
    if creates != [] {
      PostsAreFew(creates[..|creates| - 1], k);
    }
  }

  lemma {:induction false} PostsAreSome(creates: seq<Create>, k: Key, i: nat)
    requires i < |creates| && creates[i].key == k
    ensures PostsOf(creates, k) >= 1
  {
    if i < |creates| - 1 {
      PostsAreSome(creates[..|creates| - 1], k, i);
    }
  }

  lemma KeptMeansFew(s: State, k: Key)
    requires KeyInv(s, k)
    ensures PostsOf(s.creates, k) <= 1
  {
    OneCreateAtMost(s, k);
    PostsAreFew(s.creates, k);
  }

  lemma {:induction false} FreshPid(pids: set<Pid>) returns (p: Pid)
    ensures p !in pids && forall q :: q in pids ==> q < p
    decreases |pids|
  {
    if pids == {} {
      p := 0;
    } else {
      var q :| q in pids;
      p := FreshPid(pids - {q});
      p := if q < p then p else q + 1;
      assert forall r :: r in pids ==> r == q || r in pids - {q};
    }
  }

  /** A run in which no step drops the key's entry. */
  ghost predicate QuietRun(s: State, actions: seq<Action>, k: Key) {
    Trace(s, actions) && Undisturbed(s, actions, k)
  }

  lemma StepsFirst(s: State, a: Action, rest: seq<Action>, k: Key)
    requires Enabled(s, a) && Spares(s, a, k) && QuietRun(Next(s, a), rest, k)
    ensures QuietRun(s, [a] + rest, k) && After(s, [a] + rest) == After(Next(s, a), rest)
  {
    assert ([a] + rest)[1..] == rest;
  }

  lemma StaysPut(s: State, k: Key)
    ensures QuietRun(s, [], k) && After(s, []) == s
  {
  }

  const ANSWER := Response(0, "", "")

  /** With no entry for the key, an idle process's request claims it. */
  lemma ClaimsTheKey(s: State, q: Pid, k: Key)
    requires Lookup(s.es, k).None? && PcOf(s, q).Idle?
    ensures var a := Reserve(q, k, "", 0, 0);
      && Enabled(s, a) && Spares(s, a, k)
      && Next(s, a).pcs == s.pcs[q := Holding(k, "")] && Next(s, a).creates == s.creates
      && Next(s, a).limit == s.limit
      && Lookup(Next(s, a).es, k) == Some(Record("", NO_RESPONSE, 0, true))
  {
    var live, e := Swept(s.es, 0), Entry(k, Record("", NO_RESPONSE, 0, true));
    var n := SweptIsASuffix(s.es, 0);
    AbsentFromSuffix(s.es, n, k);
    var all := live + [e];
    LookupAppended(live, e, k);
    var m := if s.limit > 0 && |all| > s.limit then |all| - s.limit else 0;
    assert Newest(all, s.limit) == all[m..];
    assert all[m..] == live[m..] + [e];
    AbsentFromSuffix(live, m, k);
    LookupAppended(live[m..], e, k);
  }

  lemma {:induction false} AbsentFromSuffix(es: seq<Entry>, n: nat, k: Key)
    requires n <= |es| && Lookup(es, k).None?
    ensures Lookup(es[n..], k).None?
  {
    if n > 0 {
      AbsentFromSuffix(es[1..], n - 1, k);
      assert es[1..][n - 1..] == es[n..];
    }
  }

  /** A holder of the key makes a post, wherever its reservation went. */
  lemma HolderPosts(s: State, q: Pid, k: Key)
    requires PcOf(s, q).Holding? && PcOf(s, q).key == k
    ensures var a := Make(q, Some(ANSWER));
      && Enabled(s, a) && Spares(s, a, k)
      && Next(s, a).pcs == s.pcs[q := Made(k, PcOf(s, q).body, ANSWER)]
      && PostsOf(Next(s, a).creates, k) == PostsOf(s.creates, k) + 1
  {
    var c := Create(k, PcOf(s, q).body, ANSWER);
    assert (s.creates + [c])[..|s.creates|] == s.creates;
  }

  /** A step that drops the entry leaves the key to a newcomer, and everyone at work on the key
      where they were. */
  lemma NewcomerClaims(s: State, a: Action, k: Key) returns (q: Pid, steps: seq<Action>)
    requires Inv(s, k) && Enabled(s, a) && !Spares(s, a, k) && !a.Abandon?
    ensures QuietRun(Next(s, a), steps, k)
    ensures var t := After(Next(s, a), steps);
      && PcOf(t, q).Holding? && PcOf(t, q).key == k && t.creates == s.creates
      && (forall p :: p in s.pcs && Involved(s.pcs[p], k) ==> p != q && PcOf(t, p) == s.pcs[p])
      && Lookup(t.es, k).Some? && Lookup(t.es, k).value.pending
  {
    var s' := Next(s, a);
    DropIsAReserveOrAStore(s, a, k);
    if a.Reserve? && a.key == k {
      q, steps := a.pid, [];
      StaysPut(s', k);
    } else {
      q := FreshPid(s'.pcs.Keys);
      ClaimsTheKey(s', q, k);
      var claim := Reserve(q, k, "", 0, 0);
      StaysPut(Next(s', claim), k);
      StepsFirst(s', claim, [], k);
      steps := [claim] + [];
    }
  }

  lemma DropIsAReserveOrAStore(s: State, a: Action, k: Key)
    requires Inv(s, k) && Enabled(s, a) && !Spares(s, a, k) && !a.Abandon?
    ensures !Involved(PcOf(s, a.pid), k) && Next(s, a).creates == s.creates
    ensures forall p :: p != a.pid ==> PcOf(Next(s, a), p) == PcOf(s, p)
    ensures if a.Reserve? && a.key == k then
        PcOf(Next(s, a), a.pid) == Holding(k, a.body)
          && Lookup(Next(s, a).es, k) == Some(Record(a.body, NO_RESPONSE, a.expires, true))
      else Lookup(Next(s, a).es, k).None?
  {
    hide Inv, Swept, Newest, Removed;
    assert DistinctKeys(s.es) by { DistinctByInv(s, k); }
    match a
    case Reserve(_, key, body, swept, expires) =>
      LookupSwept(s.es, swept, k);
      var live, e := Swept(s.es, swept), Entry(key, Record(body, NO_RESPONSE, expires, true));
      if Lookup(live, key).None? {
        LookupNewest(live, e, s.limit, k);
      }
    case StoreResponse(p, expires) =>
      var pc := PcOf(s, p);
      StoredLookup(s.es, pc.key, Record(pc.body, pc.resp, expires, false), s.limit, k);
    case Release(p) => LookupRemoved(s.es, PcOf(s, p).key, k);
    case Make(_, _) =>
  }

  lemma DistinctByInv(s: State, k: Key)
    requires Inv(s, k)
    ensures DistinctKeys(s.es) && KeyInv(s, k)
  {
  }

  /** The stale release of a request that failed takes away the newcomer's reservation, and a third
      request claims the key again. */
  lemma StaleReleaseLetsAnotherIn(t: State, p: Pid, q: Pid, k: Key) returns (steps: seq<Action>)
    requires PcOf(t, p).Finishing? && PcOf(t, p).key == k && PcOf(t, q).Holding? && PcOf(t, q).key == k
    requires Lookup(t.es, k).Some? && Lookup(t.es, k).value.pending
    ensures QuietRun(t, steps, k) && PostsOf(After(t, steps).creates, k) == PostsOf(t.creates, k) + 2
  {
    hide Lookup, Removed, Swept, Newest, PostsOf;
    var t1 := Next(t, Release(p));
    LookupRemoved(t.es, k, k);
    var r := FreshPid(t1.pcs.Keys);
    ClaimsTheKey(t1, r, k);
    var t2 := Next(t1, Reserve(r, k, "", 0, 0));
    assert PcOf(t2, q) == PcOf(t, q) && PcOf(t2, r).Holding?;
    steps := BothPost(t2, q, r, k);
    hide QuietRun, Next;
    StepsFirst(t1, Reserve(r, k, "", 0, 0), steps, k);
    steps := [Reserve(r, k, "", 0, 0)] + steps;
    StepsFirst(t, Release(p), steps, k);
    steps := [Release(p)] + steps;
  }

  lemma OnePosts(t: State, q: Pid, k: Key) returns (steps: seq<Action>)
    requires PcOf(t, q).Holding? && PcOf(t, q).key == k
    ensures QuietRun(t, steps, k) && PostsOf(After(t, steps).creates, k) == PostsOf(t.creates, k) + 1
  {
    HolderPosts(t, q, k);
    hide Spares, Next, PostsOf;
    StaysPut(Next(t, Make(q, Some(ANSWER))), k);
    StepsFirst(t, Make(q, Some(ANSWER)), [], k);
    steps := [Make(q, Some(ANSWER))] + [];
  }

  lemma BothPost(t: State, p: Pid, q: Pid, k: Key) returns (steps: seq<Action>)
    requires p != q && PcOf(t, p).Holding? && PcOf(t, p).key == k && PcOf(t, q).Holding? && PcOf(t, q).key == k
    ensures QuietRun(t, steps, k) && PostsOf(After(t, steps).creates, k) == PostsOf(t.creates, k) + 2
  {
    HolderPosts(t, p, k);
    var next := Next(t, Make(p, Some(ANSWER)));
    assert PcOf(next, q) == PcOf(t, q);
    hide Spares, Next, PostsOf;
    steps := OnePosts(next, q, k);
    StepsFirst(t, Make(p, Some(ANSWER)), steps, k);
    steps := [Make(p, Some(ANSWER))] + steps;
  }

  lemma {:induction false} RunsJoin(s: State, first: seq<Action>, second: seq<Action>, k: Key)
    requires QuietRun(s, first, k) && QuietRun(After(s, first), second, k)
    ensures QuietRun(s, first + second, k) && After(s, first + second) == After(After(s, first), second)
    decreases |first|
  {
    hide QuietRun, Trace, After, Enabled, Next, Spares;
    if first == [] {
      StaysPut(s, k);
      assert first + second == second;
    } else {
      FirstStep(s, first, k);
      RunsJoin(Next(s, first[0]), first[1..], second, k);
      assert first + second == [first[0]] + (first[1..] + second);
      StepsFirst(s, first[0], first[1..] + second, k);
    }
  }

  lemma FirstStep(s: State, actions: seq<Action>, k: Key)
    requires QuietRun(s, actions, k) && actions != []
    ensures Enabled(s, actions[0]) && Spares(s, actions[0], k) && QuietRun(Next(s, actions[0]), actions[1..], k)
    ensures After(s, actions) == After(Next(s, actions[0]), actions[1..])
  {
    hide Enabled, Next, Spares;
  }

  /** Where the entry is gone and a newcomer holds the key, two posts are a few steps away. */
  lemma TwoPostsFollow(s: State, t: State, q: Pid, k: Key) returns (steps: seq<Action>)
    requires KeyInv(s, k) && Lookup(s.es, k).Some?
    requires PcOf(t, q).Holding? && PcOf(t, q).key == k && t.creates == s.creates
    requires forall p :: p in s.pcs && Involved(s.pcs[p], k) ==> p != q && PcOf(t, p) == s.pcs[p]
    requires Lookup(t.es, k).Some? && Lookup(t.es, k).value.pending
    ensures QuietRun(t, steps, k) && PostsOf(After(t, steps).creates, k) >= 2
  {
    hide Lookup, QuietRun, PostsOf;
    OneCreateAtMost(s, k);
    if NoCreate(s, k) {
      var p := UnfinishedOwner(s, k);
      if s.pcs[p].Holding? {
        steps := BothPost(t, p, q, k);
      } else {
        steps := StaleReleaseLetsAnotherIn(t, p, q, k);
      }
    } else {
      var i :| 0 <= i < |s.creates| && s.creates[i].key == k;
      PostsAreSome(s.creates, k, i);
      steps := OnePosts(t, q, k);
    }
  }

  lemma PostedMeansSome(s: State, k: Key, body: string, resp: Response)
    ensures OneCreate(s, k, body, resp) ==> !NoCreate(s, k)
  {
  }

  lemma UnfinishedOwner(s: State, k: Key) returns (p: Pid)
    requires KeyInv(s, k) && Lookup(s.es, k).Some? && NoCreate(s, k)
    ensures p in s.pcs && Involved(s.pcs[p], k) && (s.pcs[p].Holding? || s.pcs[p].Finishing?)
  {
    forall body, resp ensures !OneCreate(s, k, body, resp) {
      PostedMeansSome(s, k, body, resp);
    }
    var rec := Lookup(s.es, k).value;
    p :| OnlyWorks(s, p, k) && s.pcs[p].body == rec.body &&
         if s.pcs[p].Made? then OneCreate(s, k, rec.body, s.pcs[p].resp) else NoCreate(s, k);
  }

  /** A request that leaves its post unstored drops its own reservation, and the next one posts
      again. */
  lemma UnstoredPostIsRepeated(s: State, a: Action, k: Key) returns (more: seq<Action>)
    requires Inv(s, k) && Enabled(s, a) && a.Abandon? && PcOf(s, a.pid).key == k
    ensures QuietRun(Next(s, a), more, k) && PostsOf(After(Next(s, a), more).creates, k) >= 2
  {
    WorkerOwns(s, a.pid, k);
    AbandonedPostCounts(s, a.pid, k);
    hide Inv, PostsOf, OneCreate, NoCreate, Removed;
    var s' := Next(s, a);
    var t := Next(s', Release(a.pid));
    LookupRemoved(s'.es, k, k);
    var q := FreshPid(t.pcs.Keys);
    ClaimsTheKey(t, q, k);
    var u := Next(t, Reserve(q, k, "", 0, 0));
    more := OnePosts(u, q, k);
    hide QuietRun, Next;
    StepsFirst(t, Reserve(q, k, "", 0, 0), more, k);
    more := [Reserve(q, k, "", 0, 0)] + more;
    StepsFirst(s', Release(a.pid), more, k);
    more := [Release(a.pid)] + more;
  }

  lemma AbandonedPostCounts(s: State, p: Pid, k: Key)
    requires Inv(s, k) && PcOf(s, p).Made? && PcOf(s, p).key == k
    ensures PostsOf(s.creates, k) >= 1
  {
    WorkerOwns(s, p, k);
    var pc, rec := s.pcs[p], Lookup(s.es, k).value;
    assert OneCreate(s, k, rec.body, pc.resp);
    var i :| 0 <= i < |s.creates| && s.creates[i] == Create(k, rec.body, pc.resp);
    PostsAreSome(s.creates, k, i);
  }

  lemma LosingTheEntryAllowsTwoPosts(s: State, a: Action, k: Key) returns (more: seq<Action>)
    requires Inv(s, k) && Enabled(s, a) && !Spares(s, a, k) && !a.Abandon?
    ensures QuietRun(Next(s, a), more, k) && PostsOf(After(Next(s, a), more).creates, k) >= 2
  {
    assert Lookup(s.es, k).Some?;
    DistinctByInv(s, k);
    hide Inv, KeyInv, Spares, Next, Enabled, PostsOf;
    var q, first := NewcomerClaims(s, a, k);
    var second := TwoPostsFollow(s, After(Next(s, a), first), q, k);
    RunsJoin(Next(s, a), first, second, k);
    more := first + second;
  }

  lemma AbandonSparesOthers(s: State, a: Action, k: Key)
    requires Enabled(s, a) && a.Abandon?
    ensures Spares(s, a, k) <==> PcOf(s, a.pid).key != k
  {
  }

  // ---------- which steps spare a key ----------

  lemma TableStaysWithin(s: State, a: Action)
    requires Enabled(s, a) && Within(s.es, s.limit)
    ensures Within(Next(s, a).es, s.limit) && Next(s, a).limit == s.limit
  {
    hide Within, Reserved, Stored, Released, Lookup, Swept;
    match a
    case Reserve(_, key, body, swept, expires) =>
      SweptStaysWithin(s.es, swept, s.limit);
      ReservationTells(Swept(s.es, swept), key, body, expires, s.limit, AnotherKey(key));
    case StoreResponse(p, expires) =>
      var pc := PcOf(s, p);
      StoringTells(s.es, pc.key, Record(pc.body, pc.resp, expires, false), s.limit, AnotherKey(pc.key));
    case Release(p) => ReleaseTells(s.es, PcOf(s, p).key, s.limit, AnotherKey(PcOf(s, p).key));
    case _ =>
  }

  function AnotherKey(k: Key): (other: Key)
    ensures other != k
  {
    k.(project := k.project + 1)
  }

  lemma SweptStaysWithin(es: seq<Entry>, now: int, limit: int)
    requires Within(es, limit)
    ensures Within(Swept(es, now), limit)
  {
    var n := SweptIsASuffix(es, now);
    var rest := es[n..];
    assert forall i :: 0 <= i < |rest| ==> rest[i] == es[n + i];
  }

  /** What the sweep at the start of a reservation leaves of the entry at place i. */
  lemma SweepSparesIff(es: seq<Entry>, now: int, i: nat, limit: int)
    requires Within(es, limit) && i < |es|
    ensures Lookup(Swept(es, now), es[i].key).Some? <==> exists j :: 0 <= j <= i && now <= es[j].rec.expires
    ensures Sorted(es) ==> ((exists j :: 0 <= j <= i && now <= es[j].rec.expires) <==> now <= es[i].rec.expires)
    ensures now <= es[0].rec.expires ==> Swept(es, now) == es
    ensures now > es[0].rec.expires ==> |Swept(es, now)| < |es|
  {
    var n := SweptIsASuffix(es, now);
    var rest := es[n..];
    LookupFinds(rest, es[i].key);
    assert forall j :: 0 <= j < |rest| ==> rest[j] == es[n + j];
    if n <= i {
      assert rest[i - n] == es[i] && IsLive(es[n], now);
    }
  }

  /** A step spares the key of the entry at place i exactly so: a reservation if that entry, or one
      before it, has not expired at the sweep, and the reservation does not push it out; a store if
      it does not push it out; an abandoned post if it is another key's; and any other step. */
  lemma SparesIff(s: State, a: Action, k: Key, i: nat)
    requires Enabled(s, a) && Within(s.es, s.limit) && i < |s.es| && s.es[i].key == k
    ensures Spares(s, a, k) <==>
      match a
      case Reserve(_, key, _, swept, _) =>
        && (exists j :: 0 <= j <= i && swept <= s.es[j].rec.expires)
        && !(Lookup(s.es, key).None? && PushesOut(s.es, s.limit, k))
      case StoreResponse(p, _) => !(Lookup(s.es, PcOf(s, p).key).None? && PushesOut(s.es, s.limit, k))
      case Abandon(p) => PcOf(s, p).key != k
      case _ => true
  {
    LookupFinds(s.es, k);
    match a
    case Reserve(_, key, body, swept, expires) => ReservationSparesIff(s.es, s.limit, k, i, key, body, swept, expires);
    case StoreResponse(p, expires) =>
      var pc := PcOf(s, p);
      var rec := Record(pc.body, pc.resp, expires, false);
      if pc.key == k {
        StoringTells(s.es, k, rec, s.limit, AnotherKey(k));
      } else {
        StoringTells(s.es, pc.key, rec, s.limit, k);
      }
    case Release(p) =>
      if PcOf(s, p).key != k {
        ReleaseTells(s.es, PcOf(s, p).key, s.limit, k);
      }
    case _ =>
  }

  lemma ReservationSparesIff(
    es: seq<Entry>, limit: int, k: Key, i: nat, key: Key, body: string, swept: int, expires: int)
    requires Within(es, limit) && i < |es| && es[i].key == k
    ensures
      var live := Swept(es, swept);
      (Lookup(live, k).Some? && Lookup(Reserved(live, key, body, expires, limit), k).Some? <==>
        && (exists j :: 0 <= j <= i && swept <= es[j].rec.expires)
        && !(Lookup(es, key).None? && PushesOut(es, limit, k)))
  {
    var live := Swept(es, swept);
    LookupFinds(es, k);
    SweepSparesIff(es, swept, i, limit);
    SweptStaysWithin(es, swept, limit);
    hide Swept, Reserved, Lookup;
    if Lookup(live, k).Some? {
      if key == k {
        ReservationTells(live, k, body, expires, limit, AnotherKey(k));
      } else {
        ReservationTells(live, key, body, expires, limit, k);
      }
    }
  }

  /** The hypothesis on evictions, expiries and unstored posts is exact, step by step: in any state
      the protocol keeps, a step spares the key if and only if every later run that spares it makes
      at most one post. */
  lemma AtMostOneCreateIff(s: State, a: Action, k: Key)
    requires Inv(s, k) && Enabled(s, a)
    ensures Spares(s, a, k) <==>
      forall more :: QuietRun(Next(s, a), more, k) ==> PostsOf(After(Next(s, a), more).creates, k) <= 1
  {
    hide Inv, Spares, Next, Enabled, PostsOf;
    if Spares(s, a, k) {
      forall more | QuietRun(Next(s, a), more, k)
        ensures PostsOf(After(Next(s, a), more).creates, k) <= 1
      {
        StepKeeps(s, a, k);
        TraceKeeps(Next(s, a), more, k);
        DistinctByInv(After(Next(s, a), more), k);
        KeptMeansFew(After(Next(s, a), more), k);
      }
    } else {
      var more;
      if a.Abandon? {
        AbandonSparesOthers(s, a, k);
        more := UnstoredPostIsRepeated(s, a, k);
      } else {
        more := LosingTheEntryAllowsTwoPosts(s, a, k);
      }
    }
  }
}
