/** The scheduler's runner: a drain flag and a count of runs under way, one in-flight flag a
    job, and a lock shared with other processes for singleton jobs. `Runner` is the object as
    one thread drives it; the state machine interleaves any number of threads, shutdowns and
    other processes at the points where they can be seen. */
module Scheduler {
  import opened Basics

  datatype Scope = System | Tenant

  datatype Job = Job(scope: Scope, singleton: bool)

  datatype RunError = UnknownJob | Draining | Busy | NotLeader | LockFailed | NotEnumerated | Failed

  datatype LockAnswer = Acquired | HeldElsewhere | Broken

  /** What the job's body comes to when it is called: once, for a system job, or for each tenant
      the enumeration reaches before it ends or fails. A panic in a body is recovered and counts as
      a failure. */
  datatype Bodies = Bodies(single: bool, each: seq<bool>, enumerated: bool)

  // ---------- one thread ----------

  predicate AllWell(results: seq<bool>) {
    forall i :: 0 <= i < |results| ==> results[i]
  }

  /** Every body of a run must succeed for the run to, and every tenant must have been reached. */
  function Verdict(scope: Scope, bodies: Bodies): Option<RunError> {
    if scope.System? then (if bodies.single then None else Some(Failed))
    else if !bodies.enumerated then Some(NotEnumerated)
    else if AllWell(bodies.each) then None else Some(Failed)
  }

  predicate NeedsLock(job: Job, locker: bool) {
    job.singleton && locker
  }

  /** The error a run ends with once it is reserved and has the flag. */
  function InvokeError(job: Job, locker: bool, lock: LockAnswer, bodies: Bodies, manual: bool): Option<RunError> {
    if NeedsLock(job, locker) && lock.Broken? then Some(LockFailed)
    else if NeedsLock(job, locker) && lock.HeldElsewhere? then (if manual then Some(NotLeader) else None)
    else Verdict(job.scope, bodies)
  }

  /** Every body the job is for was reached and succeeded. */
  predicate Succeeds(job: Job, bodies: Bodies) {
    match job.scope
    case System => bodies.single
    case Tenant => bodies.enumerated && forall i :: 0 <= i < |bodies.each| ==> bodies.each[i]
  }

  /** The lock a run needs is not in its way: no other process has it and it works. */
  predicate Unlocked(job: Job, locker: bool, lock: LockAnswer) {
    job.singleton && locker ==> lock == Acquired
  }

  ghost predicate CallsFor(name: string, job: Job, bodies: Bodies, before: seq<string>, after: seq<string>) {
    && before <= after && |after| == |before| + (if job.scope == System then 1 else |bodies.each|)
    && forall i :: |before| <= i < |after| ==> after[i] == name
  }

  /** Which error a run that has its count and its flag ends with, each for its one cause: a lock that
      broke, one held elsewhere, a failed enumeration or a failed body. A lock held elsewhere is no
      error to a tick. */
  lemma InvokeErrorTells(job: Job, locker: bool, lock: LockAnswer, bodies: Bodies, manual: bool)
    ensures var err := InvokeError(job, locker, lock, bodies, manual);
      && (err == Some(LockFailed) <==> job.singleton && locker && lock == Broken)
      && (err == Some(NotLeader) <==> manual && job.singleton && locker && lock == HeldElsewhere)
      && (err == Some(NotEnumerated) <==> Unlocked(job, locker, lock) && job.scope == Tenant && !bodies.enumerated)
      && (err == Some(Failed) <==>
            && Unlocked(job, locker, lock) && !Succeeds(job, bodies)
            && !(job.scope == Tenant && !bodies.enumerated))
      && (err == None <==>
            || (Unlocked(job, locker, lock) && Succeeds(job, bodies))
            || (!manual && job.singleton && locker && lock == HeldElsewhere))
  {
  }

  class Runner {
    const jobs: map<string, Job>
    const locker: bool
    var draining: bool
    var wg: nat
    var inFlight: set<string>
    var acquired: seq<string>
    var released: seq<string>
    var ran: seq<string>

    constructor (jobs: map<string, Job>, locker: bool)
      ensures this.jobs == jobs && this.locker == locker
      ensures !draining && wg == 0 && inFlight == {} && acquired == [] && released == [] && ran == []
    {
      this.jobs, this.locker := jobs, locker;
      draining, wg, inFlight := false, 0, {};
      acquired, released, ran := [], [], [];
    }

    method Reserve() returns (ok: bool)
      modifies this`wg
      ensures ok == !draining && wg == old(wg) + if ok then 1 else 0
    {
      if draining {
        return false;
      }
      wg := wg + 1;
      return true;
    }

    method CallGuarded(name: string, result: bool) returns (ok: bool)
      modifies this`ran
      ensures ok == result && ran == old(ran) + [name]
    {
      ran := ran + [name];
      return result;
    }

    /** Runs the body for each tenant reached, whatever the earlier calls come to. */
    method FanOut(name: string, bodies: Bodies) returns (err: Option<RunError>)
      modifies this`ran
      ensures err == Verdict(Tenant, bodies)
      ensures err == None <==> bodies.enumerated && forall i :: 0 <= i < |bodies.each| ==> bodies.each[i]
      ensures err == Some(NotEnumerated) <==> !bodies.enumerated
      ensures |ran| == |old(ran)| + |bodies.each| && old(ran) <= ran
      ensures forall i :: |old(ran)| <= i < |ran| ==> ran[i] == name
    {
      var failed := 0;
      for i := 0 to |bodies.each|
        invariant 0 <= failed <= i
        invariant failed == 0 <==> AllWell(bodies.each[..i])
        invariant |ran| == |old(ran)| + i && old(ran) <= ran
        invariant forall j :: |old(ran)| <= j < |ran| ==> ran[j] == name
      {
        var ok := CallGuarded(name, bodies.each[i]);
        assert bodies.each[..i + 1] == bodies.each[..i] + [bodies.each[i]];
        if !ok {
          failed := failed + 1;
        }
      }
      assert bodies.each[..|bodies.each|] == bodies.each;
      if !bodies.enumerated {
        return Some(NotEnumerated);
      }
      err := if failed == 0 then None else Some(Failed);
    }

    method Invoke(name: string, lock: LockAnswer, bodies: Bodies, manual: bool) returns (err: Option<RunError>)
      requires name in jobs
      modifies this`acquired, this`released, this`ran
      ensures err == InvokeError(jobs[name], locker, lock, bodies, manual)
      ensures var mine := if jobs[name].singleton && locker && lock == Acquired then [name] else [];
              acquired == old(acquired) + mine && released == old(released) + mine
      ensures !Unlocked(jobs[name], locker, lock) ==> ran == old(ran)
      ensures Unlocked(jobs[name], locker, lock) ==> CallsFor(name, jobs[name], bodies, old(ran), ran)
    {
      var held := false;
      if jobs[name].singleton && locker {
        if lock.Broken? {
          return Some(LockFailed);
        }
        if lock.HeldElsewhere? {
          return if manual then Some(NotLeader) else None;
        }
        acquired := acquired + [name];
        held := true;
      }
      if jobs[name].scope.Tenant? {
        err := FanOut(name, bodies);
      } else {
        var ok := CallGuarded(name, bodies.single);
        err := if ok then None else Some(Failed);
      }
      if held {
        released := released + [name];
      }
    }

    /** A run leaves the count and the flags as it found them on every path, and gives back
        exactly the lock it took; it runs the body only when it got the count, the flag and,
        where it needs one, the lock. */
    method RunEntry(name: string, lock: LockAnswer, bodies: Bodies, manual: bool) returns (err: Option<RunError>)
      requires name in jobs
      modifies this
      ensures draining == old(draining) && wg == old(wg) && inFlight == old(inFlight)
      ensures var runs, job := !old(draining) && name !in old(inFlight), jobs[name];
              var mine := if runs && job.singleton && locker && lock == Acquired then [name] else [];
              && acquired == old(acquired) + mine && released == old(released) + mine
              && if runs && Unlocked(job, locker, lock) then CallsFor(name, job, bodies, old(ran), ran)
                 else ran == old(ran)
      ensures err == None <==>
        var job := jobs[name];
        if old(draining) || name in old(inFlight) then !manual
        else if job.singleton && locker && lock == HeldElsewhere then !manual
        else Unlocked(job, locker, lock) && Succeeds(job, bodies)
      ensures err == if old(draining) then (if manual then Some(Draining) else None)
                     else if name in old(inFlight) then (if manual then Some(Busy) else None)
                     else InvokeError(jobs[name], locker, lock, bodies, manual)
    {
      InvokeErrorTells(jobs[name], locker, lock, bodies, manual);
      var ok := Reserve();
      if !ok {
        Untouched();
        return if manual then Some(Draining) else None;
      }
      if name in inFlight {
        Untouched();
        err := if manual then Some(Busy) else None;
        wg := wg - 1;
        return;
      }
      inFlight := inFlight + {name};
      err := Invoke(name, lock, bodies, manual);
      inFlight := inFlight - {name};
      wg := wg - 1;
    }

    lemma Untouched()
      ensures acquired == acquired + [] && released == released + []
    {
    }

    method RunOnce(name: string, lock: LockAnswer, bodies: Bodies) returns (err: Option<RunError>)
      modifies this
      ensures draining == old(draining) && wg == old(wg) && inFlight == old(inFlight)
      ensures name !in jobs ==> acquired == old(acquired) && released == old(released) && ran == old(ran)
      ensures name in jobs ==>
        var runs, job := !old(draining) && name !in old(inFlight), jobs[name];
        var mine := if runs && job.singleton && locker && lock == Acquired then [name] else [];
        && acquired == old(acquired) + mine && released == old(released) + mine
        && if runs && Unlocked(job, locker, lock) then CallsFor(name, job, bodies, old(ran), ran) else ran == old(ran)
      ensures err == Some(UnknownJob) <==> name !in jobs
      ensures err == Some(Draining) <==> name in jobs && old(draining)
      ensures err == Some(Busy) <==> name in jobs && !old(draining) && name in old(inFlight)
      ensures name in jobs && !old(draining) && name !in old(inFlight) ==>
        var job := jobs[name];
        && (err == Some(LockFailed) <==> job.singleton && locker && lock == Broken)
        && (err == Some(NotLeader) <==> job.singleton && locker && lock == HeldElsewhere)
        && (err == Some(NotEnumerated) <==> Unlocked(job, locker, lock) && job.scope == Tenant && !bodies.enumerated)
        && (err == None <==> Unlocked(job, locker, lock) && Succeeds(job, bodies))
      ensures err == if name !in jobs then Some(UnknownJob)
                     else if old(draining) then Some(Draining)
                     else if name in old(inFlight) then Some(Busy)
                     else InvokeError(jobs[name], locker, lock, bodies, true)
    {
      if name !in jobs {
        return Some(UnknownJob);
      }
      InvokeErrorTells(jobs[name], locker, lock, bodies, true);
      err := RunEntry(name, lock, bodies, true);
    }
  }

  // ---------- many threads ----------

  type Tid = nat
  type Sid = nat

  /** Where a thread stands in runEntry. `lease` is the lock it holds, if any; the last three
      are the deferred steps, in the order they run. */
  datatype Pc =
    | Outside
    | Reserved(job: string)
    | Flagged(job: string)
    | Ready(job: string, lease: Option<nat>, bodies: nat)
    | Running(job: string, lease: Option<nat>, bodies: nat)
    | Releasing(job: string, lease: Option<nat>)
    | Unflagging(job: string)
    | Signing

  /** Where a call of Shutdown stands. */
  datatype Down = NotCalled | Waiting | SawZero | ReturnedNil | TimedOut

  datatype Owner = Ours(lease: nat) | Foreign

  datatype State = State(
    jobs: map<string, Job>, locker: bool,
    draining: bool, wg: int, inFlight: set<string>,
    threads: map<Tid, Pc>, downs: map<Sid, Down>,
    locks: map<string, Owner>, next: nat, released: seq<nat>)

  datatype Action =
    | Reserve(t: Tid, job: string)
    | Swap(t: Tid)
    | TryLock(t: Tid, answer: LockAnswer)
    | StartBody(t: Tid)
    | EndBody(t: Tid)
    | Finish(t: Tid)
    | Panic(t: Tid)
    | ReleaseLock(t: Tid)
    | ClearFlag(t: Tid)
    | Done(t: Tid)
    | Shutdown(d: Sid)
    | WaitReturns(d: Sid)
    | ReturnNil(d: Sid)
    | TimeOut(d: Sid)
    | ForeignLock(job: string)
    | ForeignUnlock(job: string)

  function PcOf(s: State, t: Tid): Pc {
    if t in s.threads then s.threads[t] else Outside
  }

  function DownOf(s: State, d: Sid): Down {
    if d in s.downs then s.downs[d] else NotCalled
  }

  function At(s: State, t: Tid, pc: Pc): State {
    s.(threads := s.threads[t := pc])
  }

  predicate Enabled(s: State, a: Action) {
    match a
    case Reserve(t, job) => PcOf(s, t).Outside? && job in s.jobs
    case Swap(t) => PcOf(s, t).Reserved?
    // The lock answers truly: it is acquired only when no one holds it.
    case TryLock(t, answer) =>
      PcOf(s, t).Flagged? && (answer.Acquired? ==> PcOf(s, t).job !in s.locks)
        && (answer.HeldElsewhere? ==> PcOf(s, t).job in s.locks)
    case StartBody(t) =>
      PcOf(s, t).Ready? && PcOf(s, t).job in s.jobs && (s.jobs[PcOf(s, t).job].scope.System? ==> PcOf(s, t).bodies == 0)
    case EndBody(t) => PcOf(s, t).Running?
    case Finish(t) =>
      PcOf(s, t).Ready? && PcOf(s, t).job in s.jobs && (s.jobs[PcOf(s, t).job].scope.System? ==> PcOf(s, t).bodies == 1)
    case Panic(t) => PcOf(s, t).Flagged? || PcOf(s, t).Ready?
    case ReleaseLock(t) => PcOf(s, t).Releasing?
    case ClearFlag(t) => PcOf(s, t).Unflagging?
    case Done(t) => PcOf(s, t).Signing?
    case Shutdown(d) => DownOf(s, d).NotCalled?
    case WaitReturns(d) => DownOf(s, d).Waiting? && s.wg == 0
    case ReturnNil(d) => DownOf(s, d).SawZero?
    case TimeOut(d) => DownOf(s, d).Waiting? || DownOf(s, d).SawZero?
    case ForeignLock(job) => job !in s.locks
    case ForeignUnlock(job) => job in s.locks && s.locks[job].Foreign?
  }

  function Next(s: State, a: Action): State
    requires Enabled(s, a)
  {
    match a
    case Reserve(t, job) => if s.draining then s else At(s, t, Reserved(job)).(wg := s.wg + 1)
    case Swap(t) =>
      var job := PcOf(s, t).job;
      if job in s.inFlight then At(s, t, Signing) else At(s, t, Flagged(job)).(inFlight := s.inFlight + {job})
    case TryLock(t, answer) =>
      var job := PcOf(s, t).job;
      if !(job in s.jobs && NeedsLock(s.jobs[job], s.locker)) then At(s, t, Ready(job, None, 0))
      else if answer.Acquired? then
        At(s, t, Ready(job, Some(s.next), 0)).(locks := s.locks[job := Ours(s.next)], next := s.next + 1)
      else At(s, t, Releasing(job, None))
    case StartBody(t) => At(s, t, Running(PcOf(s, t).job, PcOf(s, t).lease, PcOf(s, t).bodies))
    case EndBody(t) => At(s, t, Ready(PcOf(s, t).job, PcOf(s, t).lease, PcOf(s, t).bodies + 1))
    case Finish(t) => At(s, t, Releasing(PcOf(s, t).job, PcOf(s, t).lease))
    case Panic(t) => At(s, t, Releasing(PcOf(s, t).job, if PcOf(s, t).Ready? then PcOf(s, t).lease else None))
    case ReleaseLock(t) =>
      var pc := PcOf(s, t);
      if pc.lease.None? then At(s, t, Unflagging(pc.job))
      else At(s, t, Unflagging(pc.job)).(locks := s.locks - {pc.job}, released := s.released + [pc.lease.value])
    case ClearFlag(t) => At(s, t, Signing).(inFlight := s.inFlight - {PcOf(s, t).job})
    case Done(t) => At(s, t, Outside).(wg := s.wg - 1)
    case Shutdown(d) => s.(draining := true, downs := s.downs[d := Waiting])
    case WaitReturns(d) => s.(downs := s.downs[d := SawZero])
    case ReturnNil(d) => s.(downs := s.downs[d := ReturnedNil])
    case TimeOut(d) => s.(downs := s.downs[d := TimedOut])
    case ForeignLock(job) => s.(locks := s.locks[job := Foreign])
    case ForeignUnlock(job) => s.(locks := s.locks - {job})
  }

  ghost predicate Trace(s: State, actions: seq<Action>)
    decreases |actions|
  {
    actions == [] || (Enabled(s, actions[0]) && Trace(Next(s, actions[0]), actions[1..]))
  }

  ghost function After(s: State, actions: seq<Action>): State
    requires Trace(s, actions)
    decreases |actions|
  {
    if actions == [] then s else After(Next(s, actions[0]), actions[1..])
  }

  // ---------- what every step keeps ----------

  /** Between the reservation and its Done. */
  predicate Counted(pc: Pc) {
    !pc.Outside?
  }

  ghost function CountedIn(threads: map<Tid, Pc>): set<Tid> {
    set t | t in threads && Counted(threads[t])
  }

  /** The job whose in-flight flag the thread owns, from the swap to the clearing; the thread
      is inside invoke or about to clear the flag. */
  function Owned(pc: Pc): Option<string> {
    match pc
    case Flagged(j) => Some(j)
    case Ready(j, _, _) => Some(j)
    case Running(j, _, _) => Some(j)
    case Releasing(j, _) => Some(j)
    case Unflagging(j) => Some(j)
    case _ => None
  }

  function LeaseOf(pc: Pc): Option<nat> {
    match pc
    case Ready(_, lease, _) => lease
    case Running(_, lease, _) => lease
    case Releasing(_, lease) => lease
    case _ => None
  }

  /** The flag is up exactly while one thread owns it, and only one does. */
  ghost predicate FlagInv(threads: map<Tid, Pc>, inFlight: set<string>) {
    && (forall t :: t in threads && Owned(threads[t]).Some? ==> Owned(threads[t]).value in inFlight)
    && (forall job :: job in inFlight ==> IsOwned(threads, job))
    && (forall t, u :: t in threads && u in threads && t != u && Owned(threads[t]).Some? ==>
         Owned(threads[t]) != Owned(threads[u]))
  }

  ghost predicate IsOwned(threads: map<Tid, Pc>, job: string) {
    exists t :: t in threads && Owned(threads[t]) == Some(job)
  }

  ghost predicate IsLeased(threads: map<Tid, Pc>, lease: nat) {
    exists t :: t in threads && LeaseOf(threads[t]) == Some(lease)
  }

  ghost predicate IsHeld(threads: map<Tid, Pc>, job: string, lease: nat) {
    exists t :: t in threads && LeaseOf(threads[t]) == Some(lease) && Owned(threads[t]) == Some(job)
  }

  /** A held lease is a lock of ours not yet released, one thread's, and every lock of ours is
      someone's lease. */
  ghost predicate HoldInv(threads: map<Tid, Pc>, locks: map<string, Owner>, next: nat, released: seq<nat>) {
    && (forall t :: t in threads && LeaseOf(threads[t]).Some? ==>
          var n := LeaseOf(threads[t]).value;
          n < next && n !in released && Owned(threads[t]).value in locks && locks[Owned(threads[t]).value] == Ours(n))
    && (forall t, u :: t in threads && u in threads && t != u && LeaseOf(threads[t]).Some? ==>
         LeaseOf(threads[t]) != LeaseOf(threads[u]))
    && (forall job :: job in locks && locks[job].Ours? ==> IsHeld(threads, job, locks[job].lease))
  }

  /** Every lease ever taken is either held or released, and released once. */
  ghost predicate ReleaseInv(threads: map<Tid, Pc>, next: nat, released: seq<nat>) {
    && (forall n :: 0 <= n < next && n !in released ==> IsLeased(threads, n))
    && (forall n :: n in released ==> n < next)
    && (forall i, j :: 0 <= i < j < |released| ==> released[i] != released[j])
  }

  ghost predicate LeaseInv(threads: map<Tid, Pc>, locks: map<string, Owner>, next: nat, released: seq<nat>) {
    HoldInv(threads, locks, next, released) && ReleaseInv(threads, next, released)
  }

  ghost predicate DrainInv(s: State) {
    && (forall d :: d in s.downs && !s.downs[d].NotCalled? ==> s.draining)
    && (forall d :: d in s.downs && (s.downs[d].SawZero? || s.downs[d].ReturnedNil?) ==> s.wg == 0)
  }

  ghost predicate Inv(s: State) {
    && s.wg == |CountedIn(s.threads)|
    && FlagInv(s.threads, s.inFlight)
    && LeaseInv(s.threads, s.locks, s.next, s.released)
    && DrainInv(s)
  }

  ghost predicate Init(s: State) {
    && !s.draining && s.wg == 0 && s.inFlight == {} && s.next == 0 && s.released == []
    && (forall t :: t in s.threads ==> s.threads[t].Outside?)
    && (forall d :: d in s.downs ==> s.downs[d].NotCalled?)
    && (forall job :: job in s.locks ==> s.locks[job].Foreign?)
  }

  // ---------- one step, one part of the invariant at a time ----------

  lemma CountMoves(threads: map<Tid, Pc>, t: Tid, pc: Pc)
    ensures var was := t in threads && Counted(threads[t]);
            |CountedIn(threads[t := pc])| == |CountedIn(threads)|
              + (if Counted(pc) then 1 else 0) - (if was then 1 else 0)
  {
    var rest := CountedIn(threads) - {t};
    if Counted(pc) {
      assert CountedIn(threads[t := pc]) == rest + {t};
    } else {
      assert CountedIn(threads[t := pc]) == rest;
    }
    if t in threads && Counted(threads[t]) {
      assert CountedIn(threads) == rest + {t};
    } else {
      assert CountedIn(threads) == rest;
    }
  }

  lemma FlagStays(threads: map<Tid, Pc>, t: Tid, pc: Pc, inFlight: set<string>)
    requires FlagInv(threads, inFlight)
    requires Owned(pc) == if t in threads then Owned(threads[t]) else None
    ensures FlagInv(threads[t := pc], inFlight)
  {
    forall job | job in inFlight
      ensures IsOwned(threads[t := pc], job)
    {
      assert IsOwned(threads, job);
      var u :| u in threads && Owned(threads[u]) == Some(job);
      assert Owned(threads[t := pc][u]) == Some(job);
    }
  }

  lemma FlagGoesUp(threads: map<Tid, Pc>, t: Tid, pc: Pc, inFlight: set<string>)
    requires FlagInv(threads, inFlight) && (t in threads ==> Owned(threads[t]).None?)
    requires Owned(pc).Some? && Owned(pc).value !in inFlight
    ensures FlagInv(threads[t := pc], inFlight + {Owned(pc).value})
  {
    forall job | job in inFlight + {Owned(pc).value}
      ensures IsOwned(threads[t := pc], job)
    {
      if job in inFlight {
        assert IsOwned(threads, job);
        var u :| u in threads && Owned(threads[u]) == Some(job);
        assert Owned(threads[t := pc][u]) == Some(job);
      } else {
        assert Owned(threads[t := pc][t]) == Some(job);
      }
    }
  }

  lemma FlagComesDown(threads: map<Tid, Pc>, t: Tid, pc: Pc, inFlight: set<string>)
    requires FlagInv(threads, inFlight) && t in threads && Owned(threads[t]).Some? && Owned(pc).None?
    ensures FlagInv(threads[t := pc], inFlight - {Owned(threads[t]).value})
  {
    forall job | job in inFlight - {Owned(threads[t]).value}
      ensures IsOwned(threads[t := pc], job)
    {
      assert IsOwned(threads, job);
      var u :| u in threads && Owned(threads[u]) == Some(job);
      assert Owned(threads[t := pc][u]) == Some(job);
    }
  }

  /** A thread that keeps or never had a lease leaves everyone's lease held. */
  lemma LeaseMoves(threads: map<Tid, Pc>, t: Tid, pc: Pc)
    requires t in threads && LeaseOf(threads[t]).Some? ==>
      LeaseOf(pc) == LeaseOf(threads[t]) && Owned(pc) == Owned(threads[t])
    ensures forall n: nat :: IsLeased(threads, n) ==> IsLeased(threads[t := pc], n)
    ensures forall job, n: nat :: IsHeld(threads, job, n) ==> IsHeld(threads[t := pc], job, n)
  {
    forall n: nat | IsLeased(threads, n)
      ensures IsLeased(threads[t := pc], n)
    {
      var u :| u in threads && LeaseOf(threads[u]) == Some(n);
      assert LeaseOf(threads[t := pc][u]) == Some(n);
    }
    forall job, n: nat | IsHeld(threads, job, n)
      ensures IsHeld(threads[t := pc], job, n)
    {
      var u :| u in threads && LeaseOf(threads[u]) == Some(n) && Owned(threads[u]) == Some(job);
      assert LeaseOf(threads[t := pc][u]) == Some(n);
    }
  }

  lemma LeaseStays(threads: map<Tid, Pc>, t: Tid, pc: Pc, locks: map<string, Owner>, next: nat, released: seq<nat>)
    requires LeaseInv(threads, locks, next, released)
    requires LeaseOf(pc) == if t in threads then LeaseOf(threads[t]) else None
    requires LeaseOf(pc).Some? ==> Owned(pc) == Owned(threads[t])
    ensures LeaseInv(threads[t := pc], locks, next, released)
  {
    hide IsLeased, IsHeld;
    LeaseMoves(threads, t, pc);
  }

  lemma LeaseIsTaken(threads: map<Tid, Pc>, t: Tid, pc: Pc, locks: map<string, Owner>, next: nat, released: seq<nat>)
    requires LeaseInv(threads, locks, next, released)
    requires t in threads ==> LeaseOf(threads[t]).None?
    requires LeaseOf(pc) == Some(next) && Owned(pc).Some? && Owned(pc).value !in locks
    ensures LeaseInv(threads[t := pc], locks[Owned(pc).value := Ours(next)], next + 1, released)
  {
    LeaseMoves(threads, t, pc);
    var threads' := threads[t := pc];
    assert LeaseOf(threads'[t]) == Some(next);
    assert IsLeased(threads', next) && IsHeld(threads', Owned(pc).value, next);
    hide IsLeased, IsHeld;
  }

  /** A lease is one thread's for one job, so releasing it leaves every other lease held. */
  lemma OthersStayLeased(threads: map<Tid, Pc>, t: Tid, pc: Pc)
    requires t in threads && LeaseOf(threads[t]).Some?
    requires forall u :: u in threads && t != u ==> LeaseOf(threads[t]) != LeaseOf(threads[u])
    ensures forall n: nat :: n != LeaseOf(threads[t]).value && IsLeased(threads, n) ==> IsLeased(threads[t := pc], n)
    ensures forall job, n: nat :: Some(job) != Owned(threads[t]) && IsHeld(threads, job, n) ==>
              n != LeaseOf(threads[t]).value && IsHeld(threads[t := pc], job, n)
  {
    forall n: nat | n != LeaseOf(threads[t]).value && IsLeased(threads, n)
      ensures IsLeased(threads[t := pc], n)
    {
      var u :| u in threads && LeaseOf(threads[u]) == Some(n);
      assert LeaseOf(threads[t := pc][u]) == Some(n);
    }
    forall job, n: nat | Some(job) != Owned(threads[t]) && IsHeld(threads, job, n)
      ensures n != LeaseOf(threads[t]).value && IsHeld(threads[t := pc], job, n)
    {
      var u :| u in threads && LeaseOf(threads[u]) == Some(n) && Owned(threads[u]) == Some(job);
      assert LeaseOf(threads[t := pc][u]) == Some(n);
    }
  }

  lemma LeaseIsReleased(threads: map<Tid, Pc>, t: Tid, pc: Pc, locks: map<string, Owner>, next: nat, released: seq<nat>)
    requires LeaseInv(threads, locks, next, released)
    requires t in threads && LeaseOf(threads[t]).Some? && LeaseOf(pc).None?
    ensures LeaseInv(threads[t := pc], locks - {Owned(threads[t]).value}, next, released + [LeaseOf(threads[t]).value])
  {
    OthersStayLeased(threads, t, pc);
    ReleasedIsAccounted(threads, threads[t := pc], next, released, LeaseOf(threads[t]).value);
    assert forall n :: n in released + [LeaseOf(threads[t]).value] <==> n in released || n == LeaseOf(threads[t]).value;
    hide IsLeased, IsHeld, ReleaseInv;
  }

  lemma ReleasedIsAccounted(threads: map<Tid, Pc>, after: map<Tid, Pc>, next: nat, released: seq<nat>, gone: nat)
    requires ReleaseInv(threads, next, released) && gone < next && gone !in released
    requires forall n: nat :: n != gone && IsLeased(threads, n) ==> IsLeased(after, n)
    ensures ReleaseInv(after, next, released + [gone])
  {
    hide IsLeased;
  }

  lemma ForeignLocksStay(threads: map<Tid, Pc>, locks: map<string, Owner>, next: nat, released: seq<nat>, job: string)
    requires LeaseInv(threads, locks, next, released)
    ensures job !in locks ==> LeaseInv(threads, locks[job := Foreign], next, released)
    ensures job in locks && locks[job].Foreign? ==> LeaseInv(threads, locks - {job}, next, released)
  {
    hide IsLeased, IsHeld;
  }

  // ---------- one step ----------

  /** A step of one thread that keeps the flag and the lease it has. */
  lemma ThreadMoves(s: State, t: Tid, pc: Pc, wg: int)
    requires Inv(s)
    requires Owned(pc) == Owned(PcOf(s, t)) && LeaseOf(pc) == LeaseOf(PcOf(s, t))
    requires wg == s.wg + (if Counted(pc) then 1 else 0) - (if Counted(PcOf(s, t)) then 1 else 0)
    requires wg > s.wg ==> !s.draining
    ensures Inv(At(s, t, pc).(wg := wg))
  {
    hide FlagInv, LeaseInv;
    CountMoves(s.threads, t, pc);
    FlagStays(s.threads, t, pc, s.inFlight);
    LeaseStays(s.threads, t, pc, s.locks, s.next, s.released);
    assert wg >= 0;
  }

  lemma SwapKeeps(s: State, t: Tid)
    requires Inv(s) && Enabled(s, Swap(t))
    ensures Inv(Next(s, Swap(t)))
  {
    var job := PcOf(s, t).job;
    if job in s.inFlight {
      ThreadMoves(s, t, Signing, s.wg);
      hide Inv;
    } else {
      SwapRaises(s, t, job);
      hide Inv;
    }
  }

  lemma SwapRaises(s: State, t: Tid, job: string)
    requires Inv(s) && PcOf(s, t) == Reserved(job) && job !in s.inFlight
    ensures Inv(At(s, t, Flagged(job)).(inFlight := s.inFlight + {job}))
  {
    hide FlagInv, LeaseInv;
    CountMoves(s.threads, t, Flagged(job));
    FlagGoesUp(s.threads, t, Flagged(job), s.inFlight);
    LeaseStays(s.threads, t, Flagged(job), s.locks, s.next, s.released);
  }

  lemma TryLockKeeps(s: State, t: Tid, answer: LockAnswer)
    requires Inv(s) && Enabled(s, TryLock(t, answer))
    ensures Inv(Next(s, TryLock(t, answer)))
  {
    hide FlagInv, LeaseInv;
    var s' := Next(s, TryLock(t, answer));
    var pc := s'.threads[t];
    if LeaseOf(pc).None? {
      ThreadMoves(s, t, pc, s.wg);
    } else {
      CountMoves(s.threads, t, pc);
      FlagStays(s.threads, t, pc, s.inFlight);
      LeaseIsTaken(s.threads, t, pc, s.locks, s.next, s.released);
    }
  }

  lemma ReleaseLockKeeps(s: State, t: Tid)
    requires Inv(s) && Enabled(s, ReleaseLock(t))
    ensures Inv(Next(s, ReleaseLock(t)))
  {
    hide FlagInv, LeaseInv;
    var pc := Next(s, ReleaseLock(t)).threads[t];
    if LeaseOf(s.threads[t]).None? {
      ThreadMoves(s, t, pc, s.wg);
    } else {
      CountMoves(s.threads, t, pc);
      FlagStays(s.threads, t, pc, s.inFlight);
      LeaseIsReleased(s.threads, t, pc, s.locks, s.next, s.released);
    }
  }

  lemma ClearFlagKeeps(s: State, t: Tid)
    requires Inv(s) && Enabled(s, ClearFlag(t))
    ensures Inv(Next(s, ClearFlag(t)))
  {
    hide FlagInv, LeaseInv;
    CountMoves(s.threads, t, Signing);
    FlagComesDown(s.threads, t, Signing, s.inFlight);
    LeaseStays(s.threads, t, Signing, s.locks, s.next, s.released);
  }

  lemma MoveKeeps(s: State, a: Action)
    requires Inv(s) && Enabled(s, a) && (a.Reserve? || a.StartBody? || a.EndBody? || a.Finish? || a.Panic? || a.Done?)
    ensures Inv(Next(s, a))
  {
    hide FlagInv, LeaseInv;
    var s' := Next(s, a);
    if s' != s {
      ThreadMoves(s, a.t, s'.threads[a.t], s'.wg);
    }
  }

  lemma OutsiderKeeps(s: State, a: Action)
    requires Inv(s) && Enabled(s, a)
    requires a.Shutdown? || a.WaitReturns? || a.ReturnNil? || a.TimeOut? || a.ForeignLock? || a.ForeignUnlock?
    ensures Inv(Next(s, a))
  {
    hide FlagInv, LeaseInv;
    if a.ForeignLock? || a.ForeignUnlock? {
      ForeignLocksStay(s.threads, s.locks, s.next, s.released, a.job);
    }
  }

  lemma StepKeeps(s: State, a: Action)
    requires Inv(s) && Enabled(s, a)
    ensures Inv(Next(s, a))
  {
    hide Inv, Next;
    match a
    case Swap(t) => SwapKeeps(s, t);
    case TryLock(t, answer) => TryLockKeeps(s, t, answer);
    case ReleaseLock(t) => ReleaseLockKeeps(s, t);
    case ClearFlag(t) => ClearFlagKeeps(s, t);
    case Shutdown(_) => OutsiderKeeps(s, a);
    case WaitReturns(_) => OutsiderKeeps(s, a);
    case ReturnNil(_) => OutsiderKeeps(s, a);
    case TimeOut(_) => OutsiderKeeps(s, a);
    case ForeignLock(_) => OutsiderKeeps(s, a);
    case ForeignUnlock(_) => OutsiderKeeps(s, a);
    case _ => MoveKeeps(s, a);
  }

  lemma {:induction false} TraceKeeps(s: State, actions: seq<Action>)
    requires Inv(s) && Trace(s, actions)
    ensures Inv(After(s, actions))
    decreases |actions|
  {
    hide Inv, Next, Enabled;
    if actions != [] {
      StepKeeps(s, actions[0]);
      TraceKeeps(Next(s, actions[0]), actions[1..]);
    }
  }

  lemma InitInv(s: State)
    requires Init(s)
    ensures Inv(s)
  {
    assert CountedIn(s.threads) == {};
  }

  // ---------- the promises ----------

  /** The wait-group count is the number of threads between a reservation and its Done. */
  lemma CountIsExact(s: State, actions: seq<Action>)
    requires Init(s) && Trace(s, actions)
    ensures After(s, actions).wg == |CountedIn(After(s, actions).threads)|
  {
    InitInv(s);
    TraceKeeps(s, actions);
  }

  /** The thread that takes the step, if it is a thread's. */
  function Mover(a: Action): Option<Tid> {
    match a
    case Reserve(t, _) => Some(t)
    case Swap(t) => Some(t)
    case TryLock(t, _) => Some(t)
    case StartBody(t) => Some(t)
    case EndBody(t) => Some(t)
    case Finish(t) => Some(t)
    case Panic(t) => Some(t)
    case ReleaseLock(t) => Some(t)
    case ClearFlag(t) => Some(t)
    case Done(t) => Some(t)
    case _ => None
  }

  lemma OutsidersMoveNoOne(s: State, a: Action)
    requires Enabled(s, a) && Mover(a).None?
    ensures Next(s, a).threads == s.threads
  {
  }

  lemma OnlyTheMoverMoves(s: State, a: Action, t: Tid)
    requires Enabled(s, a) && Mover(a) != Some(t)
    ensures PcOf(Next(s, a), t) == PcOf(s, t)
  {
    match a
    case Reserve(u, job) => ReserveMovesOne(s, u, job, t);
    case Swap(u) => SwapMovesOne(s, u, t);
    case TryLock(u, answer) => TryLockMovesOne(s, u, answer, t);
    case ReleaseLock(u) => ReleaseLockMovesOne(s, u, t);
    case _ => if Mover(a).None? { OutsidersMoveNoOne(s, a); }
  }

  lemma ReserveMovesOne(s: State, u: Tid, job: string, t: Tid)
    requires Enabled(s, Reserve(u, job)) && u != t
    ensures PcOf(Next(s, Reserve(u, job)), t) == PcOf(s, t)
  {
  }

  lemma SwapMovesOne(s: State, u: Tid, t: Tid)
    requires Enabled(s, Swap(u)) && u != t
    ensures PcOf(Next(s, Swap(u)), t) == PcOf(s, t)
  {
  }

  lemma TryLockMovesOne(s: State, u: Tid, answer: LockAnswer, t: Tid)
    requires Enabled(s, TryLock(u, answer)) && u != t
    ensures PcOf(Next(s, TryLock(u, answer)), t) == PcOf(s, t)
  {
    hide NeedsLock;
  }

  lemma ReleaseLockMovesOne(s: State, u: Tid, t: Tid)
    requires Enabled(s, ReleaseLock(u)) && u != t
    ensures PcOf(Next(s, ReleaseLock(u)), t) == PcOf(s, t)
  {
  }

  lemma DrainingStays(s: State, a: Action)
    requires s.draining && Enabled(s, a)
    ensures Next(s, a).draining && (a.Reserve? ==> Next(s, a) == s)
  {
    hide NeedsLock;
  }

  lemma StepWhileDraining(s: State, a: Action, t: Tid)
    requires s.draining && Enabled(s, a)
    ensures Next(s, a).draining && (Counted(PcOf(Next(s, a), t)) ==> Counted(PcOf(s, t)))
  {
    DrainingStays(s, a);
    if Mover(a) != Some(t) {
      OnlyTheMoverMoves(s, a, t);
    }
    hide Next, NeedsLock;
  }

  /** Once draining is set it stays set, and from then on no thread gets a reservation: whoever
      is counted later was counted all along. */
  lemma {:induction false} NoReservationWhileDraining(s: State, actions: seq<Action>, t: Tid)
    requires s.draining && Trace(s, actions)
    ensures After(s, actions).draining
    ensures Counted(PcOf(After(s, actions), t)) ==> Counted(PcOf(s, t))
    decreases |actions|
  {
    hide Next, Enabled, PcOf, Counted;
    if actions != [] {
      StepWhileDraining(s, actions[0], t);
      NoReservationWhileDraining(Next(s, actions[0]), actions[1..], t);
    }
  }

  /** When a Shutdown has returned nil, no job body is running, and none ever will. */
  lemma ShutdownMeansQuiet(s: State, actions: seq<Action>, later: seq<Action>, d: Sid, t: Tid)
    requires Init(s) && Trace(s, actions) && DownOf(After(s, actions), d).ReturnedNil?
    requires Trace(After(s, actions), later)
    ensures !Counted(PcOf(After(s, actions), t))
    ensures !PcOf(After(After(s, actions), later), t).Running?
  {
    InitInv(s);
    TraceKeeps(s, actions);
    var end := After(s, actions);
    assert end.downs[d].ReturnedNil? && end.draining && end.wg == 0;
    assert CountedIn(end.threads) == {};
    assert Counted(PcOf(end, t)) ==> t in CountedIn(end.threads);
    NoReservationWhileDraining(end, later, t);
  }

  /** At any moment at most one thread is inside a job's invoke, and the flag is up exactly when
      one is there or on its way out. */
  lemma OneRunAJob(s: State, actions: seq<Action>, job: string)
    requires Init(s) && Trace(s, actions)
    ensures var end := After(s, actions);
            && (job in end.inFlight <==> IsOwned(end.threads, job))
            && (forall t, u ::
              t in end.threads && u in end.threads && Owned(end.threads[t]) == Some(job) == Owned(end.threads[u]) ==>
              t == u)
  {
    InitInv(s);
    TraceKeeps(s, actions);
  }

  lemma TryLockKeepsTheFlag(s: State, t: Tid, answer: LockAnswer)
    requires Enabled(s, TryLock(t, answer))
    ensures Owned(PcOf(Next(s, TryLock(t, answer)), t)) == Owned(PcOf(s, t))
  {
    hide NeedsLock;
  }

  lemma ReleaseLockKeepsTheFlag(s: State, t: Tid)
    requires Enabled(s, ReleaseLock(t))
    ensures Owned(PcOf(Next(s, ReleaseLock(t)), t)) == Owned(PcOf(s, t))
  {
  }

  lemma MoverKeepsItsFlag(s: State, a: Action, t: Tid, job: string)
    requires Enabled(s, a) && Owned(PcOf(s, t)) == Some(job) && Mover(a) == Some(t) && a != ClearFlag(t)
    ensures Owned(PcOf(Next(s, a), t)) == Some(job)
  {
    match a
    case TryLock(_, answer) => TryLockKeepsTheFlag(s, t, answer);
    case ReleaseLock(_) => ReleaseLockKeepsTheFlag(s, t);
    case _ =>
  }

  lemma OwnerHasTheFlag(s: State, t: Tid, job: string)
    requires Inv(s) && Owned(PcOf(s, t)) == Some(job)
    ensures job in s.inFlight
  {
  }

  /** A run's flag stays up until its own thread clears it, whatever ticks are dropped, panics
      recovered and locks lost in between. */
  lemma {:induction false} FlagStaysUntilItsOwnerClearsIt(s: State, actions: seq<Action>, t: Tid, job: string)
    requires Inv(s) && Trace(s, actions) && Owned(PcOf(s, t)) == Some(job)
    requires ClearFlag(t) !in actions
    ensures job in After(s, actions).inFlight && Owned(PcOf(After(s, actions), t)) == Some(job)
    decreases |actions|
  {
    hide Inv, Next, Enabled, Owned, PcOf;
    if actions == [] {
      OwnerHasTheFlag(s, t, job);
    } else {
      StepKeeps(s, actions[0]);
      if Mover(actions[0]) == Some(t) {
        MoverKeepsItsFlag(s, actions[0], t, job);
      } else {
        OnlyTheMoverMoves(s, actions[0], t);
      }
      FlagStaysUntilItsOwnerClearsIt(Next(s, actions[0]), actions[1..], t, job);
    }
  }

  /** Every lock the runner ever took is released at most once, and is unreleased only while a
      thread still on its way holds it; a thread that is done holds none. */
  lemma EveryLockIsReleasedOnce(s: State, actions: seq<Action>, n: nat)
    requires Init(s) && Trace(s, actions) && n < After(s, actions).next
    ensures var end := After(s, actions);
            && (n in end.released <==> !IsLeased(end.threads, n))
            && (forall i, j :: 0 <= i < j < |end.released| ==> end.released[i] != end.released[j])
            && (forall t :: t in end.threads && LeaseOf(end.threads[t]).Some? ==> Counted(end.threads[t]))
  {
    InitInv(s);
    TraceKeeps(s, actions);
    if IsLeased(After(s, actions).threads, n) {
      var t :| t in After(s, actions).threads && LeaseOf(After(s, actions).threads[t]) == Some(n);
    }
  }

  // ---------- singleton jobs ----------

  /** Past the lock, a thread of a job that needs one holds a lease. */
  predicate LockedPc(s: State, pc: Pc) {
    (pc.Ready? || pc.Running?) && pc.job in s.jobs && s.jobs[pc.job].singleton && s.locker ==> pc.lease.Some?
  }

  ghost predicate LockedInv(s: State) {
    forall t: Tid :: LockedPc(s, PcOf(s, t))
  }

  lemma MoverStaysLocked(s: State, a: Action, t: Tid)
    requires LockedPc(s, PcOf(s, t)) && Enabled(s, a) && Mover(a) == Some(t)
    ensures LockedPc(s, PcOf(Next(s, a), t))
  {
  }

  lemma TableOfJobsStays(s: State, a: Action)
    requires Enabled(s, a)
    ensures Next(s, a).jobs == s.jobs && Next(s, a).locker == s.locker
  {
    match a
    case TryLock(t, answer) => TryLockKeepsTheTable(s, t, answer);
    case ReleaseLock(t) =>
    case _ =>
  }

  lemma TryLockKeepsTheTable(s: State, t: Tid, answer: LockAnswer)
    requires Enabled(s, TryLock(t, answer))
    ensures var s' := Next(s, TryLock(t, answer)); s'.jobs == s.jobs && s'.locker == s.locker
  {
    hide NeedsLock;
  }

  lemma StepKeepsLocked(s: State, a: Action)
    requires LockedInv(s) && Enabled(s, a)
    ensures LockedInv(Next(s, a)) && Next(s, a).jobs == s.jobs && Next(s, a).locker == s.locker
  {
    TableOfJobsStays(s, a);
    hide Next, PcOf, Enabled;
    forall t: Tid ensures LockedPc(s, PcOf(Next(s, a), t)) {
      assert LockedPc(s, PcOf(s, t));
      if Mover(a) == Some(t) {
        MoverStaysLocked(s, a, t);
      } else {
        OnlyTheMoverMoves(s, a, t);
      }
    }
  }

  lemma {:induction false} RunKeepsLocked(s: State, actions: seq<Action>)
    requires LockedInv(s) && Trace(s, actions)
    ensures LockedInv(After(s, actions))
    ensures After(s, actions).jobs == s.jobs && After(s, actions).locker == s.locker
    decreases |actions|
  {
    hide LockedInv, Next, Enabled;
    if actions != [] {
      StepKeepsLocked(s, actions[0]);
      RunKeepsLocked(Next(s, actions[0]), actions[1..]);
    }
  }

  /** A singleton job's body runs only while this runner holds the job's lock, so no other process is
      running it, and no two threads do. */
  lemma SingletonsRunUnderTheirLock(s: State, actions: seq<Action>, t: Tid, job: string)
    requires Init(s) && Trace(s, actions) && job in s.jobs && s.jobs[job].singleton && s.locker
    requires var pc := PcOf(After(s, actions), t); pc.Running? && pc.job == job
    ensures var end := After(s, actions);
      && job in end.locks && end.threads[t].lease.Some? && end.locks[job] == Ours(end.threads[t].lease.value)
      && forall u :: u in end.threads && end.threads[u].Running? && end.threads[u].job == job ==> u == t
  {
    InitInv(s);
    TraceKeeps(s, actions);
    RunKeepsLocked(s, actions);
    OneRunAJob(s, actions, job);
    var end := After(s, actions);
    assert end.threads[t].lease == LeaseOf(end.threads[t]) && Owned(end.threads[t]) == Some(job);
  }

  /** A system job's body runs once in a run, neither less nor more often: before it the run cannot
      finish, and after it the body cannot start again. */
  lemma SystemBodyRunsOnce(s: State, t: Tid)
    requires Enabled(s, StartBody(t)) && s.jobs[PcOf(s, t).job].scope == System
    ensures !Enabled(s, Finish(t))
    ensures Enabled(Next(s, StartBody(t)), EndBody(t))
    ensures var after := Next(Next(s, StartBody(t)), EndBody(t));
      !Enabled(after, StartBody(t)) && Enabled(after, Finish(t))
  {
  }

  /** A tenant job's may always start again or finish. */
  lemma TenantBodiesRunOn(s: State, t: Tid)
    requires PcOf(s, t).Ready? && PcOf(s, t).job in s.jobs && s.jobs[PcOf(s, t).job].scope == Tenant
    ensures Enabled(s, StartBody(t)) && Enabled(s, Finish(t))
  {
  }
}
