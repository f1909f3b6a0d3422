/** The idempotency store: a map of keys to list elements and the list itself, oldest first,
    with a sweep that stops at the first live entry and a bound that evicts the oldest. */
module IdempotencyStore {
  import opened Basics

  datatype Key = Key(project: nat, key: string)

  datatype Response = Response(status: int, etag: string, body: string)

  const NO_RESPONSE := Response(0, "", "")

  /** `body` stands for the request body's hash. */
  datatype Record = Record(body: string, resp: Response, expires: int, pending: bool)

  datatype Entry = Entry(key: Key, rec: Record)

  /** What a reservation tells its caller. */
  datatype Outcome = Claimed | Replay(resp: Response) | Conflict | InProgress

  // ---------- the plain reference: a sequence searched linearly ----------

  function Lookup(es: seq<Entry>, k: Key): Option<Record> {
    if es == [] then None else if es[0].key == k then Some(es[0].rec) else Lookup(es[1..], k)
  }

  function Removed(es: seq<Entry>, k: Key): seq<Entry> {
    if es == [] then [] else if es[0].key == k then Removed(es[1..], k) else [es[0]] + Removed(es[1..], k)
  }

  predicate IsLive(e: Entry, now: int) {
    now <= e.rec.expires
  }

  /** Every entry that has not expired. */
  function Live(es: seq<Entry>, now: int): seq<Entry> {
    if es == [] then [] else if IsLive(es[0], now) then [es[0]] + Live(es[1..], now) else Live(es[1..], now)
  }

  /** Dropping from the front up to the first live entry, as the sweep does. */
  function Swept(es: seq<Entry>, now: int): seq<Entry> {
    if es == [] || IsLive(es[0], now) then es else Swept(es[1..], now)
  }

  /** The newest `limit` entries; a limit of 0 or less keeps all. */
  function Newest(es: seq<Entry>, limit: int): seq<Entry> {
    if limit > 0 && |es| > limit then es[|es| - limit..] else es
  }

  function Answer(found: Option<Record>, body: string): Outcome {
    if found.None? then Claimed
    else if found.value.body != body then Conflict
    else if found.value.pending then InProgress
    else Replay(found.value.resp)
  }

  /** A reservation on a table already rid of its expired entries. */
  function Reserved(es: seq<Entry>, k: Key, body: string, expires: int, limit: int): seq<Entry> {
    if Lookup(es, k).Some? then es else Newest(es + [Entry(k, Record(body, NO_RESPONSE, expires, true))], limit)
  }

  function Stored(es: seq<Entry>, k: Key, rec: Record, limit: int): seq<Entry> {
    if Lookup(es, k).Some? then Removed(es, k) + [Entry(k, rec)] else Newest(es + [Entry(k, rec)], limit)
  }

  function Released(es: seq<Entry>, k: Key): seq<Entry> {
    if Lookup(es, k).Some? && Lookup(es, k).value.pending then Removed(es, k) else es
  }

  ghost predicate Sorted(es: seq<Entry>) {
    forall i, j :: 0 <= i < j < |es| ==> es[i].rec.expires <= es[j].rec.expires
  }

  ghost predicate DistinctKeys(es: seq<Entry>) {
    forall i, j :: 0 <= i < j < |es| ==> es[i].key != es[j].key
  }

  // ---------- the sweep ----------

  lemma {:induction false} LiveOfLive(es: seq<Entry>, now: int)
    ensures forall e :: e in Live(es, now) <==> e in es && IsLive(e, now)
    ensures (forall e :: e in es ==> IsLive(e, now)) ==> Live(es, now) == es
    ensures |Live(es, now)| <= |es|
  {
    if es != [] {
      LiveOfLive(es[1..], now);
    }
  }

  lemma {:induction false} SweptIsASuffix(es: seq<Entry>, now: int) returns (n: nat)
    ensures n <= |es| && Swept(es, now) == es[n..]
    ensures n < |es| ==> IsLive(es[n], now)
    ensures forall i :: 0 <= i < n ==> !IsLive(es[i], now)
  {
    n := 0;
    if es != [] && !IsLive(es[0], now) {
      n := SweptIsASuffix(es[1..], now);
      n := n + 1;
    }
  }

  lemma {:induction false} SortedSweepIsExact(es: seq<Entry>, now: int)
    requires Sorted(es)
    ensures Swept(es, now) == Live(es, now)
  {
    if es != [] {
      if IsLive(es[0], now) {
        assert forall e :: e in es ==> IsLive(e, now);
        LiveOfLive(es, now);
      } else {
        SortedSweepIsExact(es[1..], now);
      }
    }
  }

  /** The early stop is exact at every instant precisely when the list is in expiry order: out of
      order, some instant finds an expired entry behind a live one, which the sweep keeps. */
  lemma SweepIsExactIffSorted(es: seq<Entry>)
    ensures Sorted(es) <==> forall now :: Swept(es, now) == Live(es, now)
  {
    if Sorted(es) {
      forall now
        ensures Swept(es, now) == Live(es, now)
      {
        SortedSweepIsExact(es, now);
      }
    } else {
      var i, j :| 0 <= i < j < |es| && es[i].rec.expires > es[j].rec.expires;
      var now := es[i].rec.expires;
      LiveOfLive(es, now);
      var n := SweptIsASuffix(es, now);
      assert n <= i;
      assert es[n..][j - n] == es[j];
      assert es[j] in Swept(es, now) && es[j] !in Live(es, now);
    }
  }

  // ---------- keys ----------

  lemma {:induction false} LookupFinds(es: seq<Entry>, k: Key)
    ensures Lookup(es, k).Some? <==> exists i :: 0 <= i < |es| && es[i].key == k
    ensures DistinctKeys(es) ==> forall i :: 0 <= i < |es| && es[i].key == k ==> Lookup(es, k) == Some(es[i].rec)
  {
    if es != [] {
      LookupFinds(es[1..], k);
      if es[0].key != k && (exists i :: 0 <= i < |es| && es[i].key == k) {
        var i :| 0 <= i < |es| && es[i].key == k;
        assert es[1..][i - 1] == es[i];
      }
      if DistinctKeys(es) && es[0].key != k {
        forall i | 0 <= i < |es| && es[i].key == k
          ensures Lookup(es, k) == Some(es[i].rec)
        {
          assert es[1..][i - 1] == es[i];
        }
      }
    }
  }

  /** Removing a key that sits at one place takes out just that place. */
  lemma {:induction false} RemovedAt(es: seq<Entry>, k: Key, i: nat)
    requires DistinctKeys(es) && i < |es| && es[i].key == k
    ensures Removed(es, k) == es[..i] + es[i + 1..]
  {
    if i == 0 {
      RemovedAbsent(es[1..], k);
    } else {
      RemovedAt(es[1..], k, i - 1);
      assert es[..i] + es[i + 1..] == [es[0]] + (es[1..][..i - 1] + es[1..][i..]);
    }
  }

  lemma {:induction false} RemovedAbsent(es: seq<Entry>, k: Key)
    requires forall i :: 0 <= i < |es| ==> es[i].key != k
    ensures Removed(es, k) == es
  {
    if es != [] {
      RemovedAbsent(es[1..], k);
    }
  }

  // ---------- the store ----------

  class Element {
    const key: Key
    var rec: Record

    constructor (key: Key, rec: Record)
      ensures this.key == key && this.rec == rec
    {
      this.key, this.rec := key, rec;
    }
  }

  /** The map and the list hold the same elements, each under its own key. */
  ghost predicate Consistent(rows: map<Key, Element>, order: seq<Element>) {
    && (forall i :: 0 <= i < |order| ==> order[i].key in rows && rows[order[i].key] == order[i])
    && (forall k :: k in rows ==> rows[k] in order && rows[k].key == k)
    && (forall i, j :: 0 <= i < j < |order| ==> order[i] != order[j])
  }

  ghost function ContentsOf(order: seq<Element>): (es: seq<Entry>)
    reads order
    ensures |es| == |order|
    ensures forall i :: 0 <= i < |order| ==> es[i] == Entry(order[i].key, order[i].rec)
  {
    seq(|order|, i requires 0 <= i < |order| reads order => Entry(order[i].key, order[i].rec))
  }

  lemma RemovalStaysConsistent(rows: map<Key, Element>, order: seq<Element>, i: nat)
    requires Consistent(rows, order) && i < |order|
    ensures Consistent(rows - {order[i].key}, order[..i] + order[i + 1..])
  {
    var less := order[..i] + order[i + 1..];
    assert forall j :: 0 <= j < |less| ==> less[j] == order[if j < i then j else j + 1];
    forall k | k in rows && k != order[i].key
      ensures rows[k] in less
    {
      var j :| 0 <= j < |order| && order[j] == rows[k];
      assert less[if j < i then j else j - 1] == rows[k];
    }
  }

  lemma AdditionStaysConsistent(rows: map<Key, Element>, order: seq<Element>, el: Element)
    requires Consistent(rows, order) && el.key !in rows
    ensures Consistent(rows[el.key := el], order + [el])
  {
    var more := order + [el];
    assert more[|order|] == el;
    forall k | k in rows
      ensures rows[k] in more
    {
      var j :| 0 <= j < |order| && order[j] == rows[k];
      assert more[j] == rows[k];
    }
  }

  lemma MoveStaysConsistent(rows: map<Key, Element>, order: seq<Element>, i: nat)
    requires Consistent(rows, order) && i < |order|
    ensures Consistent(rows, order[..i] + order[i + 1..] + [order[i]])
  {
    RemovalStaysConsistent(rows, order, i);
    var less := order[..i] + order[i + 1..];
    AdditionStaysConsistent(rows - {order[i].key}, less, order[i]);
    assert (rows - {order[i].key})[order[i].key := order[i]] == rows;
  }

  lemma MovedIsAPermutation(order: seq<Element>, i: nat)
    requires i < |order|
    ensures multiset(order[..i] + order[i + 1..] + [order[i]]) == multiset(order)
  {
    assert order == order[..i] + [order[i]] + order[i + 1..];
  }

  lemma MovedContents(order: seq<Element>, i: nat)
    requires i < |order| && DistinctKeys(ContentsOf(order))
    ensures ContentsOf(order[..i] + order[i + 1..] + [order[i]]) ==
      Removed(ContentsOf(order), order[i].key) + [Entry(order[i].key, order[i].rec)]
  {
    var es, moved := ContentsOf(order), order[..i] + order[i + 1..] + [order[i]];
    RemovedAt(es, order[i].key, i);
    hide Removed, DistinctKeys;
    assert ContentsOf(moved) == es[..i] + es[i + 1..] + [es[i]];
  }

  lemma ElementsAreEntries(rows: map<Key, Element>, order: seq<Element>)
    requires Consistent(rows, order)
    ensures DistinctKeys(ContentsOf(order))
    ensures forall k :: k in rows <==> Lookup(ContentsOf(order), k).Some?
    ensures forall k :: k in rows ==> Lookup(ContentsOf(order), k) == Some(rows[k].rec)
  {
    assert DistinctKeys(ContentsOf(order));
    forall k
      ensures k in rows <==> Lookup(ContentsOf(order), k).Some?
      ensures k in rows ==> Lookup(ContentsOf(order), k) == Some(rows[k].rec)
    {
      LookupFinds(ContentsOf(order), k);
      if k in rows {
        var i :| 0 <= i < |order| && order[i] == rows[k];
        assert ContentsOf(order)[i].key == k;
      }
    }
  }

  class Store {
    const ttl: int
    const limit: int
    var rows: map<Key, Element>
    var order: seq<Element>

    ghost predicate Valid()
      reads this
    {
      Consistent(rows, order)
    }

    ghost function Contents(): seq<Entry>
      reads this, order
    {
      ContentsOf(order)
    }

    constructor (ttl: int, limit: int)
      ensures Valid() && Contents() == [] && this.ttl == ttl && this.limit == limit
    {
      this.ttl, this.limit := ttl, limit;
      rows, order := map[], [];
    }

    /** Where a listed element sits; list.Element carries its own place. */
    method Find(el: Element) returns (i: nat)
      requires el in order
      ensures i < |order| && order[i] == el
    {
      i := 0;
      while order[i] != el
        invariant i < |order| && el in order[i..]
        decreases |order| - i
      {
        i := i + 1;
      }
    }

    method Remove(el: Element)
      requires Valid() && el in order
      modifies this
      ensures Valid() && Contents() == Removed(old(Contents()), el.key)
      ensures forall e :: e in order ==> e in old(order)
      ensures |order| < |old(order)|
    {
      hide Consistent;
      var i := Find(el);
      RemovalStaysConsistent(rows, order, i);
      ElementsAreEntries(rows, order);
      RemovedAt(Contents(), el.key, i);
      rows := rows - {el.key};
      order := order[..i] + order[i + 1..];
      assert Contents() == old(Contents()[..i] + Contents()[i + 1..]);
    }

    method Sweep(now: int)
      requires Valid()
      modifies this
      ensures Valid() && Contents() == Swept(old(Contents()), now)
      ensures forall el :: el in order ==> el in old(order)
    {
      hide Consistent;
      while order != []
        invariant Valid()
        invariant Swept(Contents(), now) == Swept(old(Contents()), now)
        invariant forall el :: el in order ==> el in old(order)
        decreases |order|
      {
        if !(now > order[0].rec.expires) {
          return;
        }
        RemovedFront();
        Remove(order[0]);
      }
    }

    lemma RemovedFront()
      requires Valid() && order != []
      ensures Removed(Contents(), order[0].key) == Contents()[1..]
    {
      hide Consistent;
      ElementsAreEntries(rows, order);
      RemovedAt(Contents(), order[0].key, 0);
    }

    method Insert(k: Key, rec: Record)
      requires Valid() && k !in rows
      modifies this
      ensures Valid() && Contents() == Newest(old(Contents()) + [Entry(k, rec)], limit)
      ensures forall el :: el in order ==> el in old(order) || fresh(el)
    {
      hide Consistent;
      var el := new Element(k, rec);
      AdditionStaysConsistent(rows, order, el);
      rows, order := rows[k := el], order + [el];
      ghost var full := Contents();
      assert full == old(Contents()) + [Entry(k, rec)];
      ghost var dropped := 0;
      while limit > 0 && |order| > limit
        invariant Valid()
        invariant 0 <= dropped <= |full| && Contents() == full[dropped..]
        invariant dropped > 0 ==> limit > 0 && |order| >= limit
        invariant forall e :: e in order ==> e in old(order) || fresh(e)
        decreases |order|
      {
        RemovedFront();
        Remove(order[0]);
        dropped := dropped + 1;
      }
    }

    /** `swept` is the clock at the sweep, `now` the clock when the entry is made. */
    method Reserve(k: Key, body: string, swept: int, now: int) returns (r: Outcome)
      requires Valid()
      modifies this
      ensures Valid()
      ensures r == Answer(Lookup(Swept(old(Contents()), swept), k), body)
      ensures Contents() == Reserved(Swept(old(Contents()), swept), k, body, now + ttl, limit)
    {
      hide Consistent;
      Sweep(swept);
      ElementsAreEntries(rows, order);
      if k in rows {
        var rec := rows[k].rec;
        if rec.body != body {
          return Conflict;
        }
        if rec.pending {
          return InProgress;
        }
        return Replay(rec.resp);
      }
      Insert(k, Record(body, NO_RESPONSE, now + ttl, true));
      return Claimed;
    }

    method MoveToBack(el: Element)
      requires Valid() && el in order
      modifies this
      ensures Valid() && rows == old(rows) && multiset(order) == multiset(old(order))
      ensures Contents() == Removed(old(Contents()), el.key) + [Entry(el.key, el.rec)]
    {
      hide Consistent;
      var i := Find(el);
      MoveStaysConsistent(rows, order, i);
      ElementsAreEntries(rows, order);
      MovedIsAPermutation(order, i);
      MovedContents(order, i);
      hide ContentsOf, Removed;
      order := order[..i] + order[i + 1..] + [el];
    }

    /** `now` is the clock before the store was locked. */
    method StoreResponse(k: Key, body: string, resp: Response, now: int)
      requires Valid()
      modifies this, order
      ensures Valid()
      ensures Contents() == Stored(old(Contents()), k, Record(body, resp, now + ttl, false), limit)
    {
      hide Consistent;
      var rec := Record(body, resp, now + ttl, false);
      ElementsAreEntries(rows, order);
      if k in rows {
        assert rows[k] in order && rows[k].key == k by { Listed(k); }
        var el := rows[k];
        el.rec := rec;
        RewriteIsInvisible(old(Contents()), Contents(), k);
        MoveToBack(el);
        return;
      }
      Insert(k, rec);
    }

    lemma Listed(k: Key)
      requires Valid() && k in rows
      ensures rows[k] in order && rows[k].key == k
    {
    }

    method Release(k: Key)
      requires Valid()
      modifies this
      ensures Valid() && Contents() == Released(old(Contents()), k)
    {
      hide Consistent;
      ElementsAreEntries(rows, order);
      if k !in rows || !rows[k].rec.pending {
        return;
      }
      assert rows[k] in order && rows[k].key == k by { Listed(k); }
      Remove(rows[k]);
    }
  }

  /** Rewriting the record under one key changes nothing once that key is removed. */
  lemma {:induction false} RewriteIsInvisible(es: seq<Entry>, es': seq<Entry>, k: Key)
    requires |es| == |es'|
    requires forall i :: 0 <= i < |es| ==> es[i].key == es'[i].key && (es[i].key != k ==> es[i] == es'[i])
    ensures Removed(es, k) == Removed(es', k)
  {
    if es != [] {
      RewriteIsInvisible(es[1..], es'[1..], k);
    }
  }

  // ---------- order and bound over any use of the store ----------

  /** In expiry order, one entry a key, within the limit, and none expiring after `bound`. */
  ghost predicate InOrder(es: seq<Entry>, limit: int, bound: int) {
    && Sorted(es) && DistinctKeys(es)
    && (limit > 0 ==> |es| <= limit)
    && (forall i :: 0 <= i < |es| ==> es[i].rec.expires <= bound)
  }

  lemma SuffixInOrder(es: seq<Entry>, n: nat, limit: int, bound: int)
    requires InOrder(es, limit, bound) && n <= |es|
    ensures InOrder(es[n..], limit, bound)
  {
  }

  /** A list in order stays in order under a new last entry exactly when that entry expires last. */
  lemma AppendedInOrderIff(es: seq<Entry>, e: Entry)
    requires Sorted(es)
    ensures Sorted(es + [e]) <==> forall i :: 0 <= i < |es| ==> es[i].rec.expires <= e.rec.expires
  {
    var all := es + [e];
    if Sorted(all) {
      forall i | 0 <= i < |es|
        ensures es[i].rec.expires <= e.rec.expires
      {
        assert all[i].rec.expires <= all[|es|].rec.expires;
      }
    }
  }

  lemma NewestInOrder(es: seq<Entry>, e: Entry, limit: int, bound: int)
    requires InOrder(es, limit, bound) && Lookup(es, e.key).None? && bound <= e.rec.expires
    ensures InOrder(Newest(es + [e], limit), limit, e.rec.expires)
  {
    LookupFinds(es, e.key);
    var all := es + [e];
    AppendedInOrder(es, e, bound);
    var n := if limit > 0 && |all| > limit then |all| - limit else 0;
    assert Newest(all, limit) == all[n..];
    hide InOrder;
    SuffixInOrder(all, n, 0, e.rec.expires);
    WithinLimit(all[n..], limit, e.rec.expires);
  }

  /** A new key expiring last goes to the back of a list in order, before the limit is applied. */
  lemma AppendedInOrder(es: seq<Entry>, e: Entry, bound: int)
    requires Sorted(es) && DistinctKeys(es) && bound <= e.rec.expires
    requires forall i :: 0 <= i < |es| ==> es[i].rec.expires <= bound && es[i].key != e.key
    ensures InOrder(es + [e], 0, e.rec.expires)
  {
    AppendedInOrderIff(es, e);
  }

  lemma WithinLimit(es: seq<Entry>, limit: int, bound: int)
    requires InOrder(es, 0, bound) && (limit > 0 ==> |es| <= limit)
    ensures InOrder(es, limit, bound)
  {
  }

  lemma {:induction false} RemovedInOrder(es: seq<Entry>, k: Key, limit: int, bound: int)
    requires InOrder(es, limit, bound)
    ensures InOrder(Removed(es, k), limit, bound)
    ensures forall e :: e in Removed(es, k) ==> e in es && e.key != k
    ensures |Removed(es, k)| <= |es| && (Lookup(es, k).Some? ==> |Removed(es, k)| < |es|)
  {
    if es != [] {
      var rest := Removed(es[1..], k);
      RemovedInOrder(es[1..], k, limit, bound);
      if es[0].key != k {
        PrependedInOrder(es, rest, limit, bound);
      }
    }
  }

  /** What is kept behind an entry came from behind it. */
  lemma PrependedInOrder(es: seq<Entry>, rest: seq<Entry>, limit: int, bound: int)
    requires InOrder(es, limit, bound) && es != [] && InOrder(rest, limit, bound) && |rest| < |es|
    requires forall e :: e in rest ==> e in es[1..]
    ensures InOrder([es[0]] + rest, limit, bound)
  {
    forall j | 0 <= j < |rest| ensures es[0].rec.expires <= rest[j].rec.expires && es[0].key != rest[j].key {
      assert rest[j] in es[1..];
      var i :| 0 <= i < |es| - 1 && es[1..][i] == rest[j];
      assert es[i + 1] == rest[j];
    }
  }

  /** Storing keeps the list in order exactly when the new record expires no earlier than every
      other entry kept. A clock read before another request's entry is made can break that. */
  lemma StoreStaysSortedIff(es: seq<Entry>, k: Key, rec: Record, limit: int, bound: int)
    requires InOrder(es, limit, bound)
    ensures var after := Stored(es, k, rec, limit);
            && after != [] && after[|after| - 1] == Entry(k, rec)
            && (Sorted(after) <==> forall i :: 0 <= i < |after| - 1 ==> after[i].rec.expires <= rec.expires)
  {
    KeptAreSorted(es, k, limit, bound);
    StoredBehindTheKept(es, k, rec, limit);
    hide Lookup, Removed, Stored, Newest, InOrder, Sorted;
    AppendedInOrderIff(Kept(es, k, limit), Entry(k, rec));
  }

  /** The entries a store leaves in front of the one it writes. */
  function Kept(es: seq<Entry>, k: Key, limit: int): seq<Entry> {
    if Lookup(es, k).Some? then Removed(es, k)
    else if limit > 0 && |es| + 1 > limit then es[Min(|es|, |es| + 1 - limit)..] else es
  }

  lemma KeptAreSorted(es: seq<Entry>, k: Key, limit: int, bound: int)
    requires InOrder(es, limit, bound)
    ensures Sorted(Kept(es, k, limit))
  {
    hide Lookup, Removed;
    RemovedInOrder(es, k, limit, bound);
  }

  lemma StoredBehindTheKept(es: seq<Entry>, k: Key, rec: Record, limit: int)
    ensures Stored(es, k, rec, limit) == Kept(es, k, limit) + [Entry(k, rec)]
  {
    hide Lookup, Removed;
    var all := es + [Entry(k, rec)];
    if Lookup(es, k).None? && limit > 0 && |all| > limit {
      var n := |all| - limit;
      assert all[n..] == es[n..] + [Entry(k, rec)];
    }
  }

  /** The clock reads a reservation sweeps at and makes its entry at, or a store reads. */
  datatype Use =
    | Reserving(key: Key, body: string, swept: int, now: int)
    | Storing(key: Key, body: string, resp: Response, now: int)
    | Releasing(key: Key)

  /** The clock after a use, when it was `clock` before; no use reads an earlier time. */
  function ClockAfter(u: Use, clock: int): int {
    match u
    case Reserving(_, _, _, now) => now
    case Storing(_, _, _, now) => now
    case Releasing(_) => clock
  }

  predicate ClockRuns(u: Use, clock: int) {
    match u
    case Reserving(_, _, swept, now) => clock <= swept <= now
    case Storing(_, _, _, now) => clock <= now
    case Releasing(_) => true
  }

  datatype Used = Used(es: seq<Entry>, told: Option<Outcome>)

  /** What the store does with a use, as its methods are proved to. */
  function StoreDoes(es: seq<Entry>, u: Use, ttl: int, limit: int): Used {
    match u
    case Reserving(k, body, swept, now) =>
      Used(Reserved(Swept(es, swept), k, body, now + ttl, limit), Some(Answer(Lookup(Swept(es, swept), k), body)))
    case Storing(k, body, resp, now) => Used(Stored(es, k, Record(body, resp, now + ttl, false), limit), None)
    case Releasing(k) => Used(Released(es, k), None)
  }

  /** The reference: every expired entry is gone before a reservation looks. */
  function ReferenceDoes(es: seq<Entry>, u: Use, ttl: int, limit: int): Used {
    match u
    case Reserving(k, body, swept, now) =>
      Used(Reserved(Live(es, swept), k, body, now + ttl, limit), Some(Answer(Lookup(Live(es, swept), k), body)))
    case Storing(k, body, resp, now) => Used(Stored(es, k, Record(body, resp, now + ttl, false), limit), None)
    case Releasing(k) => Used(Released(es, k), None)
  }

  ghost predicate Clocked(uses: seq<Use>, clock: int)
    decreases |uses|
  {
    uses != [] ==> ClockRuns(uses[0], clock) && Clocked(uses[1..], ClockAfter(uses[0], clock))
  }

  function StoreRun(es: seq<Entry>, uses: seq<Use>, ttl: int, limit: int): (seq<Entry>, seq<Option<Outcome>>)
    decreases |uses|
  {
    if uses == [] then (es, [])
    else
      var first := StoreDoes(es, uses[0], ttl, limit);
      var rest := StoreRun(first.es, uses[1..], ttl, limit);
      (rest.0, [first.told] + rest.1)
  }

  function ReferenceRun(es: seq<Entry>, uses: seq<Use>, ttl: int, limit: int): (seq<Entry>, seq<Option<Outcome>>)
    decreases |uses|
  {
    if uses == [] then (es, [])
    else
      var first := ReferenceDoes(es, uses[0], ttl, limit);
      var rest := ReferenceRun(first.es, uses[1..], ttl, limit);
      (rest.0, [first.told] + rest.1)
  }

  lemma UseStaysInOrder(es: seq<Entry>, u: Use, ttl: int, limit: int, clock: int)
    requires InOrder(es, limit, clock + ttl) && ClockRuns(u, clock)
    ensures StoreDoes(es, u, ttl, limit) == ReferenceDoes(es, u, ttl, limit)
    ensures InOrder(StoreDoes(es, u, ttl, limit).es, limit, ClockAfter(u, clock) + ttl)
  {
    hide InOrder, Lookup, Removed, Live, Swept, Newest;
    match u
    case Reserving(k, body, swept, now) =>
      assert Sorted(es) by { InOrderIsSorted(es, limit, clock + ttl); }
      SortedSweepIsExact(es, swept);
      var n := SweptIsASuffix(es, swept);
      SuffixInOrder(es, n, limit, clock + ttl);
      var e := Entry(k, Record(body, NO_RESPONSE, now + ttl, true));
      if Lookup(es[n..], k).None? {
        NewestInOrder(es[n..], e, limit, clock + ttl);
      } else {
        LaterBound(es[n..], limit, clock + ttl, now + ttl);
      }
    case Storing(k, body, resp, now) =>
      var e := Entry(k, Record(body, resp, now + ttl, false));
      if Lookup(es, k).None? {
        NewestInOrder(es, e, limit, clock + ttl);
      } else {
        MovedInOrder(es, e, limit, clock + ttl);
      }
    case Releasing(k) => RemovedInOrder(es, k, limit, clock + ttl);
  }

  lemma InOrderIsSorted(es: seq<Entry>, limit: int, bound: int)
    requires InOrder(es, limit, bound)
    ensures Sorted(es)
  {
  }

  lemma LaterBound(es: seq<Entry>, limit: int, bound: int, later: int)
    requires InOrder(es, limit, bound) && bound <= later
    ensures InOrder(es, limit, later)
  {
  }

  lemma MovedInOrder(es: seq<Entry>, e: Entry, limit: int, bound: int)
    requires InOrder(es, limit, bound) && Lookup(es, e.key).Some? && bound <= e.rec.expires
    ensures InOrder(Removed(es, e.key) + [e], limit, e.rec.expires)
  {
    var rest := Removed(es, e.key);
    RemovedInOrder(es, e.key, limit, bound);
    AppendedInOrderIff(rest, e);
    forall i | 0 <= i < |rest|
      ensures rest[i].key != e.key && rest[i].rec.expires <= e.rec.expires
    {
      assert rest[i] in rest;
    }
  }

  /** Over any use of the store, with a clock that never runs backwards: it answers what a plain
      sequence, rid of its expired entries and searched from the front, would answer; it holds
      the same entries; and they stay in expiry order, one a key, within the limit. */
  lemma {:induction false} StoreRefinesReference(es: seq<Entry>, uses: seq<Use>, ttl: int, limit: int, clock: int)
      returns (end: int)
    requires InOrder(es, limit, clock + ttl) && Clocked(uses, clock)
    ensures StoreRun(es, uses, ttl, limit) == ReferenceRun(es, uses, ttl, limit)
    ensures InOrder(StoreRun(es, uses, ttl, limit).0, limit, end + ttl)
    decreases |uses|
  {
    hide InOrder, StoreDoes, ReferenceDoes;
    end := clock;
    if uses != [] {
      UseStaysInOrder(es, uses[0], ttl, limit, clock);
      end := StoreRefinesReference(StoreDoes(es, uses[0], ttl, limit).es, uses[1..], ttl, limit,
        ClockAfter(uses[0], clock));
    }
  }

  /** A run from the empty table. The request of key a reserves, finishes and reads the clock at 0,
      but b is reserved at 10 before that request gets the lock to store. */
  function LateStore(a: Key, b: Key, resp: Response): seq<Use> {
    [Reserving(a, "", -10, -10), Reserving(b, "", 10, 10), Storing(a, "", resp, 0)]
  }

  lemma LateStoreEnds(a: Key, b: Key, resp: Response)
    requires a != b
    ensures StoreRun([], LateStore(a, b, resp), 20, 0).0
      == [Entry(b, Record("", NO_RESPONSE, 30, true)), Entry(a, Record("", resp, 20, false))]
  {
    var ea, eb := Entry(a, Record("", NO_RESPONSE, 10, true)), Entry(b, Record("", NO_RESPONSE, 30, true));
    var uses, stale := LateStore(a, b, resp), Entry(a, Record("", resp, 20, false));
    assert uses[1..] == [uses[1], uses[2]] && [uses[1], uses[2]][1..] == [uses[2]] && [uses[2]][1..] == [];
    assert StoreDoes([], uses[0], 20, 0).es == [ea];
    assert StoreDoes([ea], uses[1], 20, 0).es == [ea, eb] by {
      assert Swept([ea], 10) == [ea] && [ea][1..] == [];
      assert Lookup([ea], b) == Lookup([], b);
      assert [ea] + [eb] == [ea, eb];
    }
    assert StoreDoes([ea, eb], uses[2], 20, 0).es == [eb, stale] by {
      assert [ea, eb][1..] == [eb] && [eb][1..] == [];
      assert Removed([eb], a) == [eb] + Removed([], a) == [eb];
      assert [eb] + [stale] == [eb, stale];
    }
    hide StoreDoes;
    assert StoreRun([eb, stale], [], 20, 0).0 == [eb, stale];
    assert StoreRun([ea, eb], [uses[2]], 20, 0).0 == [eb, stale];
    assert StoreRun([ea], [uses[1], uses[2]], 20, 0).0 == [eb, stale];
  }

  lemma LateStoreRunsTheClockBack(a: Key, b: Key, resp: Response)
    ensures !Clocked(LateStore(a, b, resp), -10)
  {
    var uses := LateStore(a, b, resp);
    assert uses[1..][0] == uses[1] && uses[1..][1..][0] == uses[2];
    assert Clocked(uses, -10) ==> Clocked(uses[1..], -10);
    assert Clocked(uses[1..], -10) ==> Clocked(uses[1..][1..], 10);
  }

  /** With the clock read before the lock, a's own, older expiry ends up behind b's, and a later
      sweep keeps it past its time. */
  lemma EarlyClockReadOutlivesItsTime(a: Key, b: Key, resp: Response)
    requires a != b
    ensures !Clocked(LateStore(a, b, resp), -10)
    ensures var after := StoreRun([], LateStore(a, b, resp), 20, 0).0;
            && !Sorted(after)
            && Lookup(Swept(after, 25), a) == Some(Record("", resp, 20, false)) && Lookup(Live(after, 25), a).None?
  {
    LateStoreRunsTheClockBack(a, b, resp);
    LateStoreEnds(a, b, resp);
    hide StoreRun, LateStore, Clocked;
    var eb, stale := Entry(b, Record("", NO_RESPONSE, 30, true)), Entry(a, Record("", resp, 20, false));
    var after := [eb, stale];
    assert after[1..] == [stale] && [stale][1..] == [] && [eb][1..] == [];
    assert Live(after, 25) == [eb] + Live([stale], 25) == [eb];
  }

  // ---------- when an entry is dropped ----------

  /** The insertion of a new key pushes out k: the table is full and k's entry is the oldest. */
  predicate PushesOut(es: seq<Entry>, limit: int, k: Key) {
    limit > 0 && |es| == limit && es[0].key == k
  }

  ghost predicate Within(es: seq<Entry>, limit: int) {
    DistinctKeys(es) && (limit > 0 ==> |es| <= limit)
  }

  /** What an insertion leaves: everything but the oldest of a full table, and the new entry last. */
  lemma InsertionLeaves(es: seq<Entry>, e: Entry, limit: int, other: Key)
    requires Within(es, limit) && Lookup(es, e.key).None? && other != e.key
    ensures Newest(es + [e], limit) == es[if limit > 0 && |es| == limit then 1 else 0..] + [e]
    ensures Lookup(Newest(es + [e], limit), e.key) == Some(e.rec)
    ensures Lookup(Newest(es + [e], limit), other) == if PushesOut(es, limit, other) then None else Lookup(es, other)
  {
    var kept := es[if limit > 0 && |es| == limit then 1 else 0..];
    var after := kept + [e];
    LookupFinds(es, e.key);
    LookupFinds(es, other);
    LookupFinds(after, e.key);
    LookupFinds(after, other);
    assert after[|kept|] == e;
    forall i | 0 <= i < |es| && es[i].key == other && !PushesOut(es, limit, other)
      ensures Lookup(after, other) == Some(es[i].rec)
    {
      assert after[i - (|es| - |kept|)] == es[i];
    }
  }

  /** A reservation leaves the record of every other key as it was in the swept table, except that a
      new key pushes out the oldest of a full one; its own key keeps its record, or gets a pending
      one. */
  lemma ReservationTells(es: seq<Entry>, k: Key, body: string, expires: int, limit: int, other: Key)
    requires Within(es, limit) && other != k
    ensures var after := Reserved(es, k, body, expires, limit);
      && (Lookup(after, other) == Lookup(es, other) <==> !(Lookup(es, k).None? && PushesOut(es, limit, other)))
      && (Lookup(after, other) != Lookup(es, other) ==> Lookup(after, other).None?)
      && (Lookup(es, k).Some? ==> after == es)
      && (Lookup(es, k).None? ==> Lookup(after, k) == Some(Record(body, Response(0, "", ""), expires, true)))
      && Within(after, limit)
  {
    LookupFinds(es, k);
    LookupFinds(es, other);
    if Lookup(es, k).None? {
      InsertionLeaves(es, Entry(k, Record(body, NO_RESPONSE, expires, true)), limit, other);
    }
  }

  /** Storing does the same to the other keys, and its own key's record becomes the one stored. */
  lemma StoringTells(es: seq<Entry>, k: Key, rec: Record, limit: int, other: Key)
    requires Within(es, limit) && other != k
    ensures var after := Stored(es, k, rec, limit);
      && (Lookup(after, other) == Lookup(es, other) <==> !(Lookup(es, k).None? && PushesOut(es, limit, other)))
      && (Lookup(after, other) != Lookup(es, other) ==> Lookup(after, other).None?)
      && Lookup(after, k) == Some(rec) && after != [] && after[|after| - 1] == Entry(k, rec)
      && Within(after, limit)
  {
    LookupFinds(es, k);
    LookupFinds(es, other);
    if Lookup(es, k).None? {
      InsertionLeaves(es, Entry(k, rec), limit, other);
    } else {
      RemovalLeaves(es, k, other);
      hide Removed;
      var less := Removed(es, k);
      LookupFinds(less, k);
      LookupFinds(less, other);
      InsertionLeaves(less, Entry(k, rec), 0, other);
      assert less + [Entry(k, rec)] == less[0..] + [Entry(k, rec)];
    }
  }

  lemma CutAt(es: seq<Entry>, i: nat)
    requires DistinctKeys(es) && i < |es|
    ensures var less := es[..i] + es[i + 1..];
      && DistinctKeys(less)
      && (forall j :: 0 <= j < |less| ==> less[j].key != es[i].key && less[j] in es)
      && (forall j :: 0 <= j < |es| && j != i ==> es[j] in less)
  {
    var less := es[..i] + es[i + 1..];
    assert forall j :: 0 <= j < |less| ==> less[j] == es[if j < i then j else j + 1];
    forall j | 0 <= j < |es| && j != i ensures es[j] in less {
      assert less[if j < i then j else j - 1] == es[j];
    }
  }

  lemma RemovalLeaves(es: seq<Entry>, k: Key, other: Key)
    requires DistinctKeys(es) && other != k && Lookup(es, k).Some?
    ensures var less := Removed(es, k);
      && Lookup(less, other) == Lookup(es, other) && Lookup(less, k).None?
      && |less| == |es| - 1 && DistinctKeys(less)
  {
    LookupFinds(es, k);
    var i :| 0 <= i < |es| && es[i].key == k;
    RemovedAt(es, k, i);
    CutAt(es, i);
    hide Removed;
    var less := es[..i] + es[i + 1..];
    LookupFinds(less, k);
    LookupKept(es, less, other, i);
  }

  lemma LookupKept(es: seq<Entry>, less: seq<Entry>, other: Key, i: nat)
    requires DistinctKeys(es) && DistinctKeys(less) && i < |es| && es[i].key != other
    requires forall j :: 0 <= j < |less| ==> less[j] in es
    requires forall j :: 0 <= j < |es| && j != i ==> es[j] in less
    ensures Lookup(less, other) == Lookup(es, other)
  {
    LookupFinds(es, other);
    LookupFinds(less, other);
    hide Lookup, DistinctKeys;
    if j :| 0 <= j < |es| && es[j].key == other {
      var n :| 0 <= n < |less| && less[n] == es[j];
      assert less[n].key == other;
    }
  }

  /** Releasing drops the key's own pending entry and leaves every other key, and a finished entry,
      alone. */
  lemma ReleaseTells(es: seq<Entry>, k: Key, limit: int, other: Key)
    requires Within(es, limit) && other != k
    ensures var after := Released(es, k);
      && Lookup(after, other) == Lookup(es, other)
      && Lookup(after, k) ==
           (if Lookup(es, k).Some? && Lookup(es, k).value.pending then None else Lookup(es, k))
      && (!(Lookup(es, k).Some? && Lookup(es, k).value.pending) ==> after == es)
      && Within(after, limit)
  {
    if Lookup(es, k).Some? {
      RemovalLeaves(es, k, other);
    }
  }

  /** What a reservation answers: a claim to an absent key; to a present one a conflict if the body
      differs, and else the stored response once it is there. */
  lemma ReservationAnswers(es: seq<Entry>, k: Key, body: string)
    requires DistinctKeys(es)
    ensures var told := Answer(Lookup(es, k), body);
      && (told == Claimed <==> forall i :: 0 <= i < |es| ==> es[i].key != k)
      && forall i :: 0 <= i < |es| && es[i].key == k ==>
           told == if es[i].rec.body != body then Conflict
                   else if es[i].rec.pending then InProgress else Replay(es[i].rec.resp)
  {
    LookupFinds(es, k);
  }

  /** So a reservation or a store of a new key drops another key exactly when the table is full and the
      other key's entry is the oldest. */
  lemma EvictedIff(es: seq<Entry>, k: Key, body: string, rec: Record, expires: int, limit: int, i: nat)
    requires Within(es, limit) && i < |es| && Lookup(es, k).None?
    ensures Lookup(Reserved(es, k, body, expires, limit), es[i].key).None? <==> limit > 0 && |es| == limit && i == 0
    ensures Lookup(Stored(es, k, rec, limit), es[i].key).None? <==> limit > 0 && |es| == limit && i == 0
  {
    LookupFinds(es, k);
    LookupFinds(es, es[i].key);
    ReservationTells(es, k, body, expires, limit, es[i].key);
    StoringTells(es, k, rec, limit, es[i].key);
  }

  /** A sweep drops a key of a list in order exactly when its entry has expired. */
  lemma ExpiredIff(es: seq<Entry>, now: int, i: nat)
    requires Sorted(es) && DistinctKeys(es) && i < |es|
    ensures Lookup(Swept(es, now), es[i].key).None? <==> es[i].rec.expires < now
  {
    var n := SweptIsASuffix(es, now);
    LookupFinds(es[n..], es[i].key);
    if n <= i {
      assert es[n..][i - n] == es[i];
    } else {
      forall j | 0 <= j < |es[n..]|
        ensures es[n..][j].key != es[i].key
      {
        assert es[n..][j] == es[n + j];
      }
    }
  }
}
