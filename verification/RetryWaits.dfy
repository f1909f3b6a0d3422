/** What the ladder's waits come to in plain numbers, and which results and requests it takes on. */
module RetryWaits {
  import opened Basics
  import opened Decimal
  import opened Doubles
  import opened Retry

  // ---------- the Retry-After header ----------

  /** What a response asks for: so many whole seconds, or the time until a date; nothing if the header
      is missing or reads as neither, or if that time is past. */
  lemma RetryAfterTells(v: string, untilDate: Option<int>, secs: int)
    ensures v == "" ==> ParseRetryAfter(v, untilDate) == 0
    ensures Atoi(v) == Some(secs) && 0 <= secs <= 9_223_372_036 ==>
      ParseRetryAfter(v, untilDate) == secs * 1_000_000_000
    ensures Atoi(v) == Some(secs) && -9_223_372_036 <= secs < 0 ==> ParseRetryAfter(v, untilDate) == 0
    ensures v != "" && Atoi(v) == None ==>
      ParseRetryAfter(v, untilDate) == if untilDate.Some? && untilDate.value > 0 then untilDate.value else 0
  {
    hide Atoi;
    assert Atoi("") == None by {
      EmptyIsNoNumber();
    }
  }

  lemma EmptyIsNoNumber()
    ensures Atoi("") == None
  {
  }

  /** What the response of attempt i asks for, 0 without a response. */
  function Asked(w: World, i: nat): int {
    match w.outcome(i).resp
    case None => 0
    case Some(resp) => ParseRetryAfter(resp.retryAfter, resp.untilDate)
  }

  // ---------- the waits ----------

  /** A wait the response asks for is that long, within the base and the maximum delay. */
  lemma BackoffFollowsTheHeader(p: Policy, w: World, i: nat)
    requires Settled(p) && Asked(w, i) > 0
    ensures Backoff(p, w, i) ==
      if Asked(w, i) < p.baseDelay then p.baseDelay
      else if Asked(w, i) > p.maxDelay then p.maxDelay
      else Asked(w, i)
  {
    hide ParseRetryAfter;
  }

  lemma {:induction false} Exp2IsTwoTo(i: nat)
    ensures Exp2(i) == TwoTo(i) as real
  {
    if i > 0 {
      Exp2IsTwoTo(i - 1);
    }
  }

  /** The step in whole numbers: the base delay doubled with each attempt, capped at half the
      maximum. */
  lemma StepInPlain(p: Policy, i: nat)
    ensures var grown, half := Double(p.baseDelay) * TwoTo(i), Double(p.maxDelay) as real / 2.0;
      Step(p, i) == if grown as real < half then grown as real else half
  {
    Exp2IsTwoTo(i);
    hide Exp2, TwoTo, Double;
    assert Grown(Double(p.baseDelay), i) == (Double(p.baseDelay) * TwoTo(i)) as real by {
      ProductOfWholes(Double(p.baseDelay), TwoTo(i));
    }
    hide Grown;
  }

  lemma ProductOfWholes(x: int, y: int)
    ensures x as real * y as real == (x * y) as real
  {
  }

  lemma TruncatedBetween(x: real, low: int, high: int)
    requires low as real <= x <= high as real
    ensures low <= Truncated(x) <= high
  {
    TruncationIsMonotone(low as real, x);
    TruncationIsMonotone(x, high as real);
    TruncatedWhole(low);
    TruncatedWhole(high);
  }

  lemma HalfTruncated(x: real, m: nat)
    requires m as real / 2.0 <= x <= m as real
    ensures m / 2 <= Truncated(x) <= m
  {
    assert (m / 2) as real <= m as real / 2.0;
    TruncatedBetween(x, m / 2, m);
  }

  /** Without one, and with a positive base delay, the wait lies between the base delay doubled with
      each attempt and twice that, while that is under the maximum, and from then on between half
      the maximum and the maximum. */
  lemma BackoffFollowsTheLadder(p: Policy, w: World, i: nat)
    requires 0 < p.baseDelay <= p.maxDelay && Asked(w, i) <= 0
    requires Drawn(Step(p, i), w.sum(i)) && w.sum(i) < TWO_63 as real
    ensures var grown, m, wait := Double(p.baseDelay) * TwoTo(i), Double(p.maxDelay), Backoff(p, w, i);
      if 2 * grown < m then grown <= wait <= 2 * grown else m / 2 <= wait <= p.maxDelay
  {
    PositiveDelays(p);
    StepInPlain(p, i);
    var grown, m := Double(p.baseDelay) * TwoTo(i), Double(p.maxDelay);
    var t := Truncated(w.sum(i));
    GrownIsAtLeast(Double(p.baseDelay), i);
    DoubleIsNear(p.baseDelay);
    DoubleIsNotFar(p.maxDelay);
    assert Backoff(p, w, i) == Clamp(p, t) by {
      hide ParseRetryAfter, Truncated, Step, Double;
      Converts(w.open, w.sum(i));
    }
    hide Backoff, Truncated, Double, TwoTo;
    if 2 * grown < m {
      assert Step(p, i) == grown as real;
      hide Step;
      TruncatedBetween(w.sum(i), grown, 2 * grown);
    } else {
      assert Step(p, i) == m as real / 2.0;
      hide Step;
      HalfTruncated(w.sum(i), m);
    }
  }

  lemma {:induction false} GrownIsAtLeast(b: int, i: nat)
    requires b > 0
    ensures b <= b * TwoTo(i)
  {
    if i > 0 {
      GrownIsAtLeast(b, i - 1);
      assert b * TwoTo(i) == 2 * (b * TwoTo(i - 1));
    }
  }

  /** The worst case told: what the response asks for, as for the wait, or the ladder's upper end. */
  lemma WorstCaseTells(p: Policy, open: real -> int64, i: nat, asked: int)
    requires 0 < p.baseDelay <= p.maxDelay < TWO_63 - 512
    ensures var grown, m, worst := Double(p.baseDelay) * TwoTo(i), Double(p.maxDelay),
      WorstCaseWaitFor(p, open, i, asked);
      if asked > 0 then
        worst == if asked < p.baseDelay then p.baseDelay else if asked > p.maxDelay then p.maxDelay else asked
      else if 2 * grown < m then worst == if 2 * grown > p.maxDelay then p.maxDelay else 2 * grown
      else worst == if m < p.baseDelay then p.baseDelay else if m > p.maxDelay then p.maxDelay else m
  {
    if asked <= 0 {
      PositiveDelays(p);
      StepInPlain(p, i);
      GrownIsAtLeast(Double(p.baseDelay), i);
      DoubleIsNear(p.baseDelay);
      var grown, m := Double(p.baseDelay) * TwoTo(i), Double(p.maxDelay);
      var top := if 2 * grown < m then 2 * grown else m;
      assert 2.0 * Step(p, i) == top as real;
      assert WorstCaseWaitFor(p, open, i, asked) == Clamp(p, top) by {
        hide Step, Double, TwoTo;
        Converts(open, top as real);
        TruncatedWhole(top);
      }
    }
  }

  /** With a negative base delay, exact as a double, the wait is that, as long as the sum is in
      range. */
  lemma NegativeBackoff(p: Policy, w: World, i: nat)
    requires -TWO_53 <= p.baseDelay < 0 && p.baseDelay <= p.maxDelay && Asked(w, i) <= 0
    requires Drawn(Step(p, i), w.sum(i)) && w.sum(i) >= -(TWO_63 as real)
    ensures Backoff(p, w, i) == p.baseDelay
  {
    SmallNumbersAreExact(p.baseDelay);
    GrowthIsOrdered(Double(p.baseDelay), 0, i);
    assert w.sum(i) <= Step(p, i) <= p.baseDelay as real;
    hide ParseRetryAfter, Step, Double;
    TruncationIsMonotone(-(TWO_63 as real), w.sum(i));
    TruncatedWhole(-TWO_63);
    TruncationIsMonotone(w.sum(i), p.baseDelay as real);
    TruncatedWhole(p.baseDelay);
  }

  // ---------- the waits of a run ----------

  /** Every wait slept or told to the observer is the attempt's own. */
  lemma EventsWaitTheBackoff(p: Policy, w: World, log: seq<Event>, answer: Answer, e: Event)
    requires Ran(p, w, log, answer) && e in log && (e.Slept? || (e.Notified? && e.wait != 0))
    ensures e.wait == Backoff(p, w, e.index)
  {
    EventIsOfAPart(p, w, Last(p, w, 0) + 1, e);
    hide Part, Parts, Last, Backoff, Ran;
    if e.Slept? {
      SleptHavingClimbed(p, w, e.index, e);
    } else {
      NoticeTellsTheWait(p, w, e.index, e);
    }
  }

  /** In every run, a wait after a response that asks for one is that long, within the delays of the
      policy; after any other result it follows the doubling ladder. */
  lemma WaitsFollowTheResponses(policy: Policy, w: World, log: seq<Event>, answer: Answer, e: Event)
    requires var p := WithDefaults(policy); Ran(p, w, log, answer) && Lawful(p, w)
    requires e in log && (e.Slept? || (e.Notified? && e.wait != 0))
    ensures var p, asked := WithDefaults(policy), Asked(w, e.index);
      && (asked > 0 ==>
            e.wait == if asked < p.baseDelay then p.baseDelay else if asked > p.maxDelay then p.maxDelay else asked)
      && (asked <= 0 && 0 < p.baseDelay && w.sum(e.index) < TWO_63 as real ==>
            var grown, m := Double(p.baseDelay) * TwoTo(e.index), Double(p.maxDelay);
            if 2 * grown < m then grown <= e.wait <= 2 * grown else m / 2 <= e.wait <= p.maxDelay)
  {
    var p := WithDefaults(policy);
    DefaultsSettle(policy);
    EventsWaitTheBackoff(p, w, log, answer, e);
    assert Drawn(Step(p, e.index), w.sum(e.index));
    hide Backoff, Drawn, Step, Ran, Double, TwoTo, WithDefaults, Asked;
    if Asked(w, e.index) > 0 {
      BackoffFollowsTheHeader(p, w, e.index);
    } else if 0 < p.baseDelay && w.sum(e.index) < TWO_63 as real {
      BackoffFollowsTheLadder(p, w, e.index);
    }
  }

  /** In the delays people set, up to 104 days, those bounds are the delays themselves. */
  lemma WaitsDoubleFromTheBase(policy: Policy, w: World, log: seq<Event>, answer: Answer, e: Event)
    requires var p := WithDefaults(policy);
      Ran(p, w, log, answer) && Lawful(p, w) && 0 < p.baseDelay && p.maxDelay <= TWO_53
    requires e in log && (e.Slept? || (e.Notified? && e.wait != 0)) && Asked(w, e.index) <= 0
    ensures var p := WithDefaults(policy);
      var grown := p.baseDelay * TwoTo(e.index);
      if 2 * grown < p.maxDelay then grown <= e.wait <= 2 * grown else p.maxDelay / 2 <= e.wait <= p.maxDelay
  {
    var p := WithDefaults(policy);
    DefaultsSettle(policy);
    SmallNumbersAreExact(p.baseDelay);
    SmallNumbersAreExact(p.maxDelay);
    assert Drawn(Step(p, e.index), w.sum(e.index));
    PositiveSteps(p, e.index, e.index);
    hide Double, Step, TwoTo, Ran, WithDefaults;
    assert w.sum(e.index) <= p.maxDelay as real;
    WaitsFollowTheResponses(policy, w, log, answer, e);
  }

  lemma DefaultsAreHalfASecondAndFive(p: Policy)
    ensures var q := WithDefaults(p);
      && (p.baseDelay == 0 ==> q.baseDelay == 500_000_000) && (p.baseDelay != 0 ==> q.baseDelay == p.baseDelay)
      && q.maxDelay >= q.baseDelay
      && (p.maxDelay == 0 && q.baseDelay <= 5_000_000_000 ==> q.maxDelay == 5_000_000_000)
      && (p.maxDelay != 0 && q.baseDelay <= p.maxDelay ==> q.maxDelay == p.maxDelay)
      && (p.maxDelay != 0 && q.baseDelay > p.maxDelay ==> q.maxDelay == q.baseDelay)
      && (p.maxDelay == 0 && q.baseDelay > 5_000_000_000 ==> q.maxDelay == q.baseDelay)
      && q.maxAttempts == p.maxAttempts && q.retryNonIdempotent == p.retryNonIdempotent && q.observed == p.observed
  {
  }

  // ---------- the order of a run ----------

  /** Within an attempt: the call, the notice, the draining, the sleep. */
  function Turn(e: Event): nat {
    match e
    case Called(_) => 0
    case Notified(_, _) => 1
    case Drained(_) => 2
    case Slept(_, _) => 3
  }

  predicate Before(e: Event, f: Event) {
    e.index < f.index || (e.index == f.index && Turn(e) < Turn(f))
  }

  ghost predicate Ordered(log: seq<Event>) {
    forall i, k :: 0 <= i < k < |log| ==> Before(log[i], log[k])
  }

  lemma PartIsOrdered(p: Policy, w: World, j: nat)
    ensures Ordered(Part(p, w, j))
  {
    hide Climbs, Backoff, RetryableAt;
  }

  lemma JoinedInOrder(log: seq<Event>, more: seq<Event>, n: nat)
    requires Ordered(log) && Ordered(more)
    requires (forall e :: e in log ==> e.index < n) && (forall e :: e in more ==> e.index == n)
    ensures Ordered(log + more)
  {
    hide Turn;
    forall i, k | 0 <= i < k < |log + more| ensures Before((log + more)[i], (log + more)[k]) {
      if k < |log| {
        assert Before(log[i], log[k]);
      } else if |log| <= i {
        assert Before(more[i - |log|], more[k - |log|]);
      } else {
        assert log[i] in log && more[k - |log|] in more;
      }
    }
  }

  lemma {:induction false} PartsAreOrdered(p: Policy, w: World, n: nat)
    ensures Ordered(Parts(p, w, n))
  {
    if n > 0 {
      PartsAreOrdered(p, w, n - 1);
      PartIsOrdered(p, w, n - 1);
      IndexesTell(p, w, n - 1);
      hide Part, Ordered;
      JoinedInOrder(Parts(p, w, n - 1), Part(p, w, n - 1), n - 1);
    }
  }

  lemma IndexesTell(p: Policy, w: World, n: nat)
    ensures forall e :: e in Parts(p, w, n) ==> e.index < n
    ensures forall e :: e in Part(p, w, n) ==> e.index == n
  {
    forall e | e in Parts(p, w, n) ensures e.index < n {
      EventIsOfAPart(p, w, n, e);
      hide Part, Parts;
    }
    forall e | e in Part(p, w, n) ensures e.index == n {
      PartIsOneAttempt(p, w, n, e);
      hide Part, Parts;
    }
  }

  /** Every run calls, tells the observer, drains and sleeps in that order, attempt after attempt. */
  lemma RunsAreOrdered(p: Policy, w: World, log: seq<Event>, answer: Answer)
    requires Ran(p, w, log, answer)
    ensures Ordered(log)
  {
    PartsAreOrdered(p, w, Last(p, w, 0) + 1);
  }

  // ---------- what is retried ----------

  /** A result is tried again exactly if it is a transient failure or one of these statuses, and not a
      refusal that every attempt would meet. */
  lemma RetryableIff(o: Outcome)
    ensures RetryableResult(o) <==>
      match o.err
      case Some(f) =>
        !(f in {Failure.Canceled, DeadlineExceeded, PrivateAddress, BodyTooLarge, BadCertificate, NoSuchHost})
      case None => o.resp.Some? && (o.resp.value.status in {408, 429, 500} || o.resp.value.status >= 502)
  {
  }

  lemma ReplayableIff(p: Policy, req: Request)
    ensures Replayable(p, req) <==>
      && (req.hasBody ==> req.hasGetBody)
      && (req.verb in {Get, Head, Put, Delete, Options, Trace} || p.retryNonIdempotent)
  {
  }
}
