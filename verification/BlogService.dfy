/** Publishing and unpublishing as one caller runs it: load, check, save, enqueue and commit in a
    unit of work, and one more try when an unconditional call lost a race. */
module BlogService {
  import opened Basics
  import opened BlogStore
  import opened BlogProtocol

  /** What one attempt meets: whether the transaction begins, the clock, the row another caller
      commits after the load, and whether the slug is taken, the enqueue works and the commit
      works. */
  datatype Chance =
    Chance(begins: bool, now: int, rival: Option<Post>, slugTaken: bool, enqueues: bool, commits: bool)

  /** The row the save finds. */
  function RowAtSave(row: Option<Post>, c: Chance): Option<Post> {
    if c.rival.Some? then c.rival else row
  }

  /** Whether the attempt gets as far as its save, which is after the rival. */
  predicate ReachesSave(row: Option<Post>, target: Status, ifVersion: int, c: Chance) {
    && c.begins && row.Some?
    && (ifVersion == 0 || ifVersion == row.value.version) && row.value.status != target
  }

  /** Stored versions start at 1 and fit the column. */
  predicate Stored(row: Option<Post>) {
    row.Some? ==> 1 <= row.value.version <= MAX_INT32
  }

  /** A rival has saved over the row, so its version is past the loaded one. */
  predicate Rivals(row: Option<Post>, c: Chance) {
    Stored(row) && Stored(c.rival) && (c.rival.Some? ==> row.Some? && c.rival.value.version > row.value.version)
  }

  class Service {
    const table: PostTable
    var log: seq<Event>

    constructor (row: Option<Post>)
      ensures fresh(table) && table.row == row && log == []
    {
      table := new PostTable(row);
      log := [];
    }

    /** One unit of work. It succeeds on the row it loaded or fails without a trace: the status
        flip, the raised version and the event come together or not at all. */
    method Attempt(target: Status, ifVersion: int, c: Chance) returns (r: Result<Post, PostError>)
      requires Rivals(table.row, c)
      modifies this, table
      ensures r.Ok? ==> r.value.status == target && table.row == Some(r.value) && old(table.row).Some?
      ensures r.Ok? ==> (ifVersion != 0 ==> old(table.row).value.version == ifVersion)
      ensures r.Ok? && old(table.row).value.status == target ==> r.value == old(table.row).value && log == old(log)
      ensures r.Ok? && old(table.row).value.status != target ==>
        && r.value == Persisted(Apply(old(table.row).value, target, c.now))
        && log == old(log) + [Event(KindOf(target), SnapshotOf(r.value))]
      ensures r.Err? ==> log == old(log)
      ensures r.Err? ==>
        table.row ==
          if ReachesSave(old(table.row), target, ifVersion, c) then RowAtSave(old(table.row), c) else old(table.row)
      ensures !c.begins || (old(table.row).Some? && !c.commits) ==> r.Err?
      ensures r.Err? ==>
        var was, met := old(table.row), RowAtSave(old(table.row), c);
        r.error ==
          if !c.begins then Unexpected
          else if was.None? then NotFound
          else if ifVersion != 0 && ifVersion != was.value.version then Stale(ifVersion, was.value.version)
          else if was.value.status == target then Unexpected
          else if c.rival.Some? then
            Stale(if ifVersion != 0 then ifVersion else was.value.version, met.value.version)
          else if was.value.version == MAX_INT32 then Unexpected
          else if c.slugTaken then AlreadyExists
          else Unexpected
      ensures r.Err? && r.error.Stale? && ifVersion == 0 ==>
        c.rival.Some? && table.row == c.rival && r.error == Stale(old(table.row).value.version, c.rival.value.version)
    {
      if !c.begins {
        return Err(Unexpected);
      }
      if table.row.None? {
        return Err(NotFound);
      }
      var p := table.row.value;
      if ifVersion != 0 && ifVersion != p.version {
        return Err(Stale(ifVersion, p.version));
      }
      if p.status == target {
        return if c.commits then Ok(p) else Err(Unexpected);
      }
      var effective := if ifVersion != 0 then ifVersion else p.version;
      var kind := KindOf(target);
      p := Apply(p, target, c.now);
      table.row := RowAtSave(table.row, c);
      var rowBefore := table.row;
      var refused := table.Save(p, effective, c.slugTaken);
      if refused.Some? {
        return Err(refused.value);
      }
      p := Persisted(p);
      if !c.enqueues || !c.commits {
        table.row := rowBefore;
        return Err(Unexpected);
      }
      log := log + [Event(kind, SnapshotOf(p))];
      return Ok(p);
    }

    /** A second unit of work follows only a lost race that the caller put no condition on. */
    method Transition(target: Status, ifVersion: int, first: Chance, second: Chance)
      returns (r: Result<Post, PostError>)
      requires Rivals(table.row, first)
      requires Rivals(RowAtSave(table.row, first), second)
      modifies this, table
      ensures r.Ok? ==> r.value.status == target && table.row == Some(r.value)
      ensures r.Ok? && log == old(log) ==>
        (old(table.row) == Some(r.value) || (ifVersion == 0 && first.rival == Some(r.value)))
      ensures r.Ok? && log != old(log) ==> log == old(log) + [Event(KindOf(target), SnapshotOf(r.value))]
      ensures r.Err? ==> log == old(log)
      ensures ifVersion == 0 && r.Err? && r.error.Stale? ==> first.rival.Some? && second.rival.Some?
    {
      r := Attempt(target, ifVersion, first);
      if ifVersion == 0 && r.Err? && r.error.Stale? {
        r := Attempt(target, ifVersion, second);
      }
    }
  }
}
