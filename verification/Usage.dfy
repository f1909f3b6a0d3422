/** The last-used batcher: requests record times under a mutex, a flush swaps the pending map out
    and writes it to the store entry by entry. */
module Usage {

  type Key = string
  type Tenant = string

  datatype Entry = Entry(tenant: Tenant, at: int)

  /** A call to the store. */
  datatype Touch = Touch(key: Key, entry: Entry)

  type Batch = map<Key, Entry>

  /** Recording keeps the later time, and the tenant that came with it. */
  function Recorded(pending: Batch, key: Key, entry: Entry): Batch {
    if key !in pending || entry.at > pending[key].at then pending[key := entry] else pending
  }

  // ---------- the worker ----------

  class Worker {
    var pending: Batch
    /** Every call made to the store so far. */
    var touched: seq<Touch>

    constructor ()
      ensures pending == map[] && touched == []
    {
      pending, touched := map[], [];
    }

    method Record(key: Key, tenant: Tenant, at: int)
      modifies this`pending
      ensures pending == Recorded(old(pending), key, Entry(tenant, at))
      ensures pending.Keys == old(pending.Keys) + {key}
      ensures pending[key] ==
        if key in old(pending) && old(pending)[key].at >= at then old(pending)[key] else Entry(tenant, at)
      ensures forall k :: k in old(pending) && k != key ==> pending[k] == old(pending)[k]
    {
      if key !in pending || at > pending[key].at {
        pending := pending[key := Entry(tenant, at)];
      }
    }

    /** Writes what was pending, each key once, in some order; a failed write is only logged. */
    method Flush()
      modifies this
      ensures pending == map[]
      ensures exists order :: Writes(old(pending), order) && touched == old(touched) + order
    {
      if |pending| == 0 {
        assert pending == map[];
        assert Writes(pending, []) && touched + [] == touched;
        return;
      }
      var batch := pending;
      pending := map[];
      var left, order := batch.Keys, [];
      while left != {}
        invariant left <= batch.Keys
        invariant Writes(batch - left, order)
        invariant touched == old(touched) + order && pending == map[] && batch == old(pending)
        decreases |left|
      {
        var key :| key in left;
        touched := touched + [Touch(key, batch[key])];
        WritesOneMore(batch, left, order, key);
        order := order + [Touch(key, batch[key])];
        left := left - {key};
      }
      assert batch - left == batch;
    }
  }

  /** The calls that write a batch: one for each key, with its entry. */
  ghost predicate Writes(batch: Batch, order: seq<Touch>) {
    && (forall i :: 0 <= i < |order| ==> order[i].key in batch && order[i].entry == batch[order[i].key])
    && (forall i, j :: 0 <= i < j < |order| ==> order[i].key != order[j].key)
    && (forall k :: k in batch ==> exists i :: 0 <= i < |order| && order[i].key == k)
  }

  lemma WritesOneMore(batch: Batch, left: set<Key>, order: seq<Touch>, key: Key)
    requires left <= batch.Keys && key in left && Writes(batch - left, order)
    ensures Writes(batch - (left - {key}), order + [Touch(key, batch[key])])
  {
    var longer := order + [Touch(key, batch[key])];
    forall k | k in batch - (left - {key}) ensures exists i :: 0 <= i < |longer| && longer[i].key == k {
      if k == key {
        assert longer[|order|].key == k;
      } else {
        assert k in batch - left;
        var i :| 0 <= i < |order| && order[i].key == k;
        assert longer[i].key == k;
      }
    }
  }

  // ---------- requests and the flush, interleaved ----------

  /** What the mutex makes atomic: a record, the swap, and one write of the batch taken. */
  datatype Action = Record(key: Key, entry: Entry) | Swap | Write(key: Key)

  datatype State = State(pending: Batch, batch: Batch, touched: seq<Touch>)

  const START := State(map[], map[], [])

  /** One worker flushes at a time: it swaps only when the last batch is all written. */
  predicate Enabled(s: State, a: Action) {
    match a
    case Record(_, _) => true
    case Swap => s.batch == map[]
    case Write(key) => key in s.batch
  }

  function Next(s: State, a: Action): State
    requires Enabled(s, a)
  {
    match a
    case Record(key, entry) => s.(pending := Recorded(s.pending, key, entry))
    case Swap => s.(pending := map[], batch := s.pending)
    case Write(key) => s.(batch := s.batch - {key}, touched := s.touched + [Touch(key, s.batch[key])])
  }

  predicate Trace(s: State, actions: seq<Action>)
    decreases |actions|
  {
    actions == [] || (Enabled(s, actions[0]) && Trace(Next(s, actions[0]), actions[1..]))
  }

  function After(s: State, actions: seq<Action>): State
    requires Trace(s, actions)
    decreases |actions|
  {
    if actions == [] then s else After(Next(s, actions[0]), actions[1..])
  }

  // ---------- nothing is lost ----------

  predicate HandedOver(touched: seq<Touch>, key: Key, at: int) {
    exists i :: 0 <= i < |touched| && touched[i].key == key && touched[i].entry.at >= at
  }

  /** The time, or a later one for the key, is pending, being written or handed to the store. */
  predicate Holds(s: State, key: Key, at: int) {
    || (key in s.pending && s.pending[key].at >= at)
    || (key in s.batch && s.batch[key].at >= at)
    || HandedOver(s.touched, key, at)
  }

  lemma StepLosesNothing(s: State, a: Action, key: Key, at: int)
    requires Enabled(s, a)
    requires Holds(s, key, at) || (a.Record? && a.key == key && a.entry.at == at)
    ensures Holds(Next(s, a), key, at)
  {
    var t := Next(s, a);
    if HandedOver(s.touched, key, at) {
      var i :| 0 <= i < |s.touched| && s.touched[i].key == key && s.touched[i].entry.at >= at;
      assert t.touched[i] == s.touched[i];
    } else if a.Write? && a.key == key && key in s.batch && s.batch[key].at >= at {
      assert t.touched[|s.touched|] == Touch(key, s.batch[key]);
    }
  }

  lemma {:induction false} RunLosesNothing(s: State, actions: seq<Action>, key: Key, at: int)
    requires Trace(s, actions) && Holds(s, key, at)
    ensures Holds(After(s, actions), key, at)
    decreases |actions|
  {
    hide Holds, Enabled, Next;
    if actions != [] {
      StepLosesNothing(s, actions[0], key, at);
      RunLosesNothing(Next(s, actions[0]), actions[1..], key, at);
    }
  }

  /** However records and flushes interleave, no recorded time is lost but to a later one. */
  lemma {:induction false} NewestIsNeverLost(s: State, actions: seq<Action>, k: nat)
    requires Trace(s, actions) && k < |actions| && actions[k].Record?
    ensures Holds(After(s, actions), actions[k].key, actions[k].entry.at)
    decreases |actions|
  {
    hide Holds, Enabled, Next;
    var next := Next(s, actions[0]);
    if k == 0 {
      StepLosesNothing(s, actions[0], actions[0].key, actions[0].entry.at);
      RunLosesNothing(next, actions[1..], actions[0].key, actions[0].entry.at);
    } else {
      NewestIsNeverLost(next, actions[1..], k - 1);
    }
  }

  /** Once nothing is pending or half written, the store has been given every recorded time or a
      later one. */
  lemma QuietMeansHandedOver(actions: seq<Action>, k: nat)
    requires Trace(START, actions) && k < |actions| && actions[k].Record?
    requires After(START, actions).pending == map[] && After(START, actions).batch == map[]
    ensures HandedOver(After(START, actions).touched, actions[k].key, actions[k].entry.at)
  {
    NewestIsNeverLost(START, actions, k);
  }

  // ---------- nothing is invented ----------

  /** Every entry the worker holds or has handed over is among the touches given. */
  predicate Within(s: State, known: set<Touch>) {
    && (forall k :: k in s.pending ==> Touch(k, s.pending[k]) in known)
    && (forall k :: k in s.batch ==> Touch(k, s.batch[k]) in known)
    && (forall i :: 0 <= i < |s.touched| ==> s.touched[i] in known)
  }

  function Records(actions: seq<Action>): set<Touch> {
    set i | 0 <= i < |actions| && actions[i].Record? :: Touch(actions[i].key, actions[i].entry)
  }

  function Recording(a: Action): set<Touch> {
    if a.Record? then {Touch(a.key, a.entry)} else {}
  }

  lemma StepInventsNothing(s: State, a: Action, known: set<Touch>)
    requires Enabled(s, a) && Within(s, known)
    ensures Within(Next(s, a), known + Recording(a))
  {
  }

  /** The store is only ever given pairs of key and entry, tenant included, that some request
      recorded. */
  lemma {:induction false} OnlyRecordedIsHandedOver(s: State, actions: seq<Action>, known: set<Touch>)
    requires Trace(s, actions) && Within(s, known)
    ensures Within(After(s, actions), known + Records(actions))
    decreases |actions|
  {
    hide Within, Enabled, Next;
    if actions == [] {
      assert known + Records(actions) == known;
    } else {
      StepInventsNothing(s, actions[0], known);
      OnlyRecordedIsHandedOver(Next(s, actions[0]), actions[1..], known + Recording(actions[0]));
      RecordsSplit(actions);
      assert known + Recording(actions[0]) + Records(actions[1..]) == known + Records(actions);
    }
  }

  lemma RecordsSplit(actions: seq<Action>)
    requires actions != []
    ensures Records(actions) == Recording(actions[0]) + Records(actions[1..])
  {
    forall t | t in Records(actions) ensures t in Recording(actions[0]) + Records(actions[1..]) {
      var i :| 0 <= i < |actions| && actions[i].Record? && t == Touch(actions[i].key, actions[i].entry);
      assert i > 0 ==> actions[1..][i - 1] == actions[i];
    }
    forall t | t in Records(actions[1..]) ensures t in Records(actions) {
      var i :| 0 <= i < |actions| - 1 && actions[1..][i].Record? &&
        t == Touch(actions[1..][i].key, actions[1..][i].entry);
      assert actions[i + 1] == actions[1..][i];
    }
  }

  // ---------- what the store sees never goes back ----------

  /** The key's recorded times, from here on, start no earlier than `from` and never go back. */
  predicate Forward(actions: seq<Action>, key: Key, from: int)
    decreases |actions|
  {
    actions != [] ==>
      var a := actions[0];
      if a.Record? && a.key == key then a.entry.at >= from && Forward(actions[1..], key, a.entry.at)
      else Forward(actions[1..], key, from)
  }

  /** The key's times in the order store, batch, pending, none past the newest recorded. */
  predicate InOrder(s: State, key: Key, newest: int) {
    && (forall i, j :: 0 <= i < j < |s.touched| && s.touched[i].key == key && s.touched[j].key == key ==>
          s.touched[i].entry.at <= s.touched[j].entry.at)
    && (forall i :: 0 <= i < |s.touched| && s.touched[i].key == key ==> Upstream(s, key, newest, s.touched[i].entry.at))
    && (key in s.batch ==> s.batch[key].at <= newest && (key in s.pending ==> s.batch[key].at <= s.pending[key].at))
    && (key in s.pending ==> s.pending[key].at <= newest)
  }

  predicate Upstream(s: State, key: Key, newest: int, at: int) {
    && at <= newest
    && (key in s.batch ==> at <= s.batch[key].at)
    && (key in s.pending ==> at <= s.pending[key].at)
  }

  function Newest(a: Action, key: Key, newest: int): int {
    if a.Record? && a.key == key then a.entry.at else newest
  }

  lemma StepKeepsOrder(s: State, a: Action, key: Key, newest: int)
    requires Enabled(s, a) && InOrder(s, key, newest) && Newest(a, key, newest) >= newest
    ensures InOrder(Next(s, a), key, Newest(a, key, newest))
  {
  }

  lemma {:induction false} RunKeepsOrder(s: State, actions: seq<Action>, key: Key, newest: int) returns (last: int)
    requires Trace(s, actions) && InOrder(s, key, newest) && Forward(actions, key, newest)
    ensures InOrder(After(s, actions), key, last)
    decreases |actions|
  {
    hide InOrder, Enabled, Next;
    if actions == [] {
      last := newest;
    } else {
      StepKeepsOrder(s, actions[0], key, newest);
      last := RunKeepsOrder(Next(s, actions[0]), actions[1..], key, Newest(actions[0], key, newest));
    }
  }

  /** What a run records for the key, in order. */
  function RecordsFor(actions: seq<Action>, key: Key): seq<Entry>
    decreases |actions|
  {
    if actions == [] then []
    else if actions[0].Record? && actions[0].key == key then [actions[0].entry] + RecordsFor(actions[1..], key)
    else RecordsFor(actions[1..], key)
  }

  predicate Rising(entries: seq<Entry>) {
    forall i, j :: 0 <= i < j < |entries| ==> entries[i].at <= entries[j].at
  }

  /** The store is never given an earlier time for the key after a later one. */
  predicate InOrderFor(touched: seq<Touch>, key: Key) {
    forall i, j :: 0 <= i < j < |touched| && touched[i].key == touched[j].key == key ==>
      touched[i].entry.at <= touched[j].entry.at
  }

  lemma {:induction false} RisingIsForward(actions: seq<Action>, key: Key, from: int)
    requires Rising(RecordsFor(actions, key))
    requires forall e :: e in RecordsFor(actions, key) ==> from <= e.at
    ensures Forward(actions, key, from)
    decreases |actions|
  {
    if actions != [] {
      var entries := RecordsFor(actions, key);
      if actions[0].Record? && actions[0].key == key {
        assert entries[1..] == RecordsFor(actions[1..], key) && entries[0] == actions[0].entry;
        forall e | e in entries[1..] ensures actions[0].entry.at <= e.at {
          var i :| 0 <= i < |entries| - 1 && entries[1..][i] == e;
          assert entries[i + 1] == e;
        }
        assert Rising(entries[1..]);
        RisingIsForward(actions[1..], key, actions[0].entry.at);
      } else {
        RisingIsForward(actions[1..], key, from);
      }
    }
  }

  /** Each record flushed before the next. */
  function FlushEach(key: Key, entries: seq<Entry>): seq<Action> {
    if entries == [] then [] else [Record(key, entries[0]), Swap, Write(key)] + FlushEach(key, entries[1..])
  }

  function Touches(key: Key, entries: seq<Entry>): seq<Touch> {
    seq(|entries|, i requires 0 <= i < |entries| => Touch(key, entries[i]))
  }

  lemma OneFlush(s: State, key: Key, entry: Entry, rest: seq<Action>)
    requires s.pending == map[] && s.batch == map[]
    requires Trace(s.(touched := s.touched + [Touch(key, entry)]), rest)
    ensures var run := [Record(key, entry), Swap, Write(key)] + rest;
      && Trace(s, run)
      && After(s, run) == After(s.(touched := s.touched + [Touch(key, entry)]), rest)
  {
    var recorded := s.(pending := map[key := entry]);
    var swapped := s.(batch := map[key := entry]);
    var written := s.(touched := s.touched + [Touch(key, entry)]);
    assert Next(s, Record(key, entry)) == recorded && Next(recorded, Swap) == swapped;
    assert swapped.batch - {key} == map[];
    assert Next(swapped, Write(key)) == written;
    hide Trace, After;
    Prefixed(swapped, Write(key), rest);
    Prefixed(recorded, Swap, [Write(key)] + rest);
    Prefixed(s, Record(key, entry), [Swap] + ([Write(key)] + rest));
    assert [Record(key, entry)] + ([Swap] + ([Write(key)] + rest)) == [Record(key, entry), Swap, Write(key)] + rest;
  }

  lemma Prefixed(s: State, a: Action, rest: seq<Action>)
    requires Enabled(s, a) && Trace(Next(s, a), rest)
    ensures Trace(s, [a] + rest) && After(s, [a] + rest) == After(Next(s, a), rest)
  {
    assert ([a] + rest)[1..] == rest;
  }

  lemma NoSteps(s: State)
    ensures Trace(s, []) && After(s, []) == s
  {
  }

  lemma {:induction false} FlushEachRuns(s: State, key: Key, entries: seq<Entry>)
    requires s.pending == map[] && s.batch == map[]
    ensures Trace(s, FlushEach(key, entries))
    ensures After(s, FlushEach(key, entries)) == s.(touched := s.touched + Touches(key, entries))
    decreases |entries|
  {
    hide Trace, After;
    if entries == [] {
      NoSteps(s);
      assert s.touched + Touches(key, entries) == s.touched;
    } else {
      var next := s.(touched := s.touched + [Touch(key, entries[0])]);
      FlushEachRuns(next, key, entries[1..]);
      OneFlush(s, key, entries[0], FlushEach(key, entries[1..]));
      assert [Touch(key, entries[0])] + Touches(key, entries[1..]) == Touches(key, entries);
      assert next.touched + Touches(key, entries[1..]) == s.touched + Touches(key, entries);
    }
  }

  lemma {:induction false} FlushEachRecords(key: Key, entries: seq<Entry>)
    ensures RecordsFor(FlushEach(key, entries), key) == entries
  {
    if entries != [] {
      var rest := FlushEach(key, entries[1..]);
      var run := [Record(key, entries[0]), Swap, Write(key)] + rest;
      FlushEachRecords(key, entries[1..]);
      assert run[1..] == [Swap, Write(key)] + rest && run[1..][1..] == [Write(key)] + rest;
      assert ([Write(key)] + rest)[1..] == rest;
      assert RecordsFor([Write(key)] + rest, key) == entries[1..];
      assert RecordsFor(run[1..], key) == entries[1..];
    }
  }

  /** However a list of records for a key interleaves with flushes and other keys, the store is
      given them in order, exactly when the list never goes back. */
  lemma StoreNeverGoesBackIff(key: Key, entries: seq<Entry>)
    ensures Rising(entries) <==>
      forall run :: Trace(START, run) && RecordsFor(run, key) == entries ==> InOrderFor(After(START, run).touched, key)
  {
    hide Trace, After, RecordsFor, InOrderFor;
    if Rising(entries) {
      hide Rising;
      forall run | Trace(START, run) && RecordsFor(run, key) == entries
        ensures InOrderFor(After(START, run).touched, key)
      {
        RisingKeepsOrder(key, run);
      }
    } else {
      FallingGoesBack(key, entries);
      FlushEachRecords(key, entries);
    }
  }

  lemma FallingGoesBack(key: Key, entries: seq<Entry>)
    requires !Rising(entries)
    ensures Trace(START, FlushEach(key, entries))
    ensures !InOrderFor(After(START, FlushEach(key, entries)).touched, key)
  {
    hide Trace, After, FlushEach;
    FlushEachRuns(START, key, entries);
    assert [] + Touches(key, entries) == Touches(key, entries);
    FallingTouches(key, entries);
    hide InOrderFor, Rising, Touches;
  }

  lemma FallingTouches(key: Key, entries: seq<Entry>)
    requires !Rising(entries)
    ensures !InOrderFor(Touches(key, entries), key)
  {
    var i, j :| 0 <= i < j < |entries| && entries[i].at > entries[j].at;
    var touched := Touches(key, entries);
    assert touched[i] == Touch(key, entries[i]) && touched[j] == Touch(key, entries[j]);
  }

  lemma RisingKeepsOrder(key: Key, run: seq<Action>)
    requires Trace(START, run) && Rising(RecordsFor(run, key))
    ensures InOrderFor(After(START, run).touched, key)
  {
    var entries := RecordsFor(run, key);
    var from := if entries == [] then 0 else entries[0].at;
    forall e | e in entries ensures from <= e.at {
      var i :| 0 <= i < |entries| && entries[i] == e;
      assert i > 0 ==> entries[0].at <= entries[i].at;
    }
    RisingIsForward(run, key, from);
    var last := RunKeepsOrder(START, run, key, from);
  }

  // ---------- the flush is those steps ----------

  function WriteAll(order: seq<Touch>): seq<Action> {
    seq(|order|, i requires 0 <= i < |order| => Write(order[i].key))
  }

  /** Writing a batch as the worker's flush does is a run of the steps above that ends with the
      batch all written. */
  lemma {:induction false} FlushIsARun(s: State, order: seq<Touch>)
    requires Writes(s.batch, order)
    ensures Trace(s, WriteAll(order))
    ensures After(s, WriteAll(order)) == s.(batch := map[], touched := s.touched + order)
    decreases |order|
  {
    hide Writes;
    if order == [] {
      NothingToWrite(s.batch);
      assert s.touched + order == s.touched;
    } else {
      WritesRest(s.batch, order);
      var first := Write(order[0].key);
      var next := Next(s, first);
      assert WriteAll(order)[0] == first && WriteAll(order)[1..] == WriteAll(order[1..]);
      assert next.touched + order[1..] == s.touched + order;
      assert next.(batch := map[], touched := s.touched + order) == s.(batch := map[], touched := s.touched + order);
      hide WriteAll, Next;
      FlushIsARun(next, order[1..]);
    }
  }

  lemma NothingToWrite(batch: Batch)
    requires Writes(batch, [])
    ensures batch == map[]
  {
  }

  lemma WritesRest(batch: Batch, order: seq<Touch>)
    requires Writes(batch, order) && order != []
    ensures order[0].key in batch && order[0] == Touch(order[0].key, batch[order[0].key])
    ensures Writes(batch - {order[0].key}, order[1..])
  {
    var rest, left := order[1..], batch - {order[0].key};
    forall i | 0 <= i < |rest| ensures rest[i].key in left && rest[i].entry == left[rest[i].key] {
      assert rest[i] == order[i + 1] && order[0].key != order[i + 1].key;
    }
    forall k | k in left ensures exists i :: 0 <= i < |rest| && rest[i].key == k {
      var i :| 0 <= i < |order| && order[i].key == k;
      assert rest[i - 1] == order[i];
    }
  }
}
