/** The retrying transport: its backoff bounds, and the ladder of attempts over whatever the
    transport, the clock and the caller's context do. Durations are nanoseconds. */
module Retry {
  import opened Basics
  import opened Decimal
  import opened Doubles

  const SECOND: int := 1_000_000_000
  const DEFAULT_BASE_DELAY: int := 500_000_000
  const DEFAULT_MAX_DELAY: int := 5 * SECOND

  // ---------- backoff ----------

  datatype Policy = Policy(
    maxAttempts: int, baseDelay: int64, maxDelay: int64, retryNonIdempotent: bool, observed: bool)

  function Or(value: int64, fallback: int64): int64 { if value != 0 then value else fallback }

  function WithDefaults(p: Policy): Policy {
    var baseDelay := Or(p.baseDelay, DEFAULT_BASE_DELAY);
    p.(baseDelay := baseDelay, maxDelay := Max(Or(p.maxDelay, DEFAULT_MAX_DELAY), baseDelay))
  }

  function Clamp(p: Policy, d: int): int {
    Min(Max(d, p.baseDelay), p.maxDelay)
  }

  function Exp2(n: nat): real {
    if n == 0 then 1.0 else 2.0 * Exp2(n - 1)
  }

  function Grown(delay: int, attempt: nat): real {
    delay as real * Exp2(attempt)
  }

  /** Doubling and halving a double is exact; a product past the largest double is past half the
      maximum here as it is there. */
  function Step(p: Policy, attempt: nat): real {
    var grown, half := Grown(Double(p.baseDelay), attempt), Double(p.maxDelay) as real / 2.0;
    if grown < half then grown else half
  }

  /** What a step and a random part of it can come to. Both ends are doubles, and rounding keeps
      the sum between them. */
  predicate Drawn(step: real, sum: real) {
    && (step <= sum <= 2.0 * step || 2.0 * step <= sum <= step)
    && (sum == step || sum == 2.0 * step || IsDouble(sum))
  }

  /** `open` is what converting a double past the range of a duration gives. */
  function WaitFor(p: Policy, open: real -> int64, retryAfter: int, sum: real): int {
    if retryAfter > 0 then Clamp(p, retryAfter) else Clamp(p, ToInt64(open, sum))
  }

  function WorstCaseWaitFor(p: Policy, open: real -> int64, attempt: nat, retryAfter: int): int {
    if retryAfter > 0 then Clamp(p, retryAfter) else Clamp(p, ToInt64(open, 2.0 * Step(p, attempt)))
  }

  // What callers rely on, for every attempt, draw and open conversion.

  ghost predicate NoWaitPassesTheWorst(p: Policy) {
    forall open: real -> int64, attempt: nat, retryAfter: int, sum: real :: Drawn(Step(p, attempt), sum) ==>
      WaitFor(p, open, retryAfter, sum) <= WorstCaseWaitFor(p, open, attempt, retryAfter)
  }

  ghost predicate WorstNeverShrinks(p: Policy) {
    forall open: real -> int64, i: nat, j: nat, retryAfter: int :: i <= j ==>
      WorstCaseWaitFor(p, open, i, retryAfter) <= WorstCaseWaitFor(p, open, j, retryAfter)
  }

  ghost predicate NoWaitIsZero(p: Policy) {
    forall open: real -> int64, attempt: nat, retryAfter: int, sum: real :: Drawn(Step(p, attempt), sum) ==>
      WaitFor(p, open, retryAfter, sum) != 0
  }

  /** A policy as the transport holds it. */
  predicate Settled(p: Policy) {
    p.baseDelay != 0 && p.maxDelay != 0 && p.baseDelay <= p.maxDelay
  }

  lemma DefaultsSettle(p: Policy)
    ensures Settled(WithDefaults(p))
    ensures Settled(p) ==> WithDefaults(p) == p
  {
  }

  lemma {:induction false} Exp2Grows(i: nat, j: nat)
    requires i <= j
    ensures 1.0 <= Exp2(i) <= Exp2(j)
  {
    if i < j {
      Exp2Grows(i, j - 1);
    } else if i > 0 {
      Exp2Grows(i - 1, j - 1);
    }
  }

  lemma Scaled(factor: real, x: real, y: real)
    requires factor >= 0.0 && x <= y
    ensures factor * x <= factor * y
  {
    assert factor * (y - x) >= 0.0;
  }

  lemma GrowthIsOrdered(delay: int, i: nat, j: nat)
    requires i <= j
    ensures delay >= 0 ==> delay as real <= Grown(delay, i) <= Grown(delay, j)
    ensures delay <= 0 ==> Grown(delay, j) <= Grown(delay, i) <= delay as real
    ensures Grown(delay, 0) == delay as real
  {
    Exp2Grows(i, j);
    var d := delay as real;
    if delay >= 0 {
      Scaled(d, 1.0, Exp2(i));
      Scaled(d, Exp2(i), Exp2(j));
    } else {
      Scaled(-d, 1.0, Exp2(i));
      Scaled(-d, Exp2(i), Exp2(j));
      Negated(d, Exp2(i));
      Negated(d, Exp2(j));
    }
  }

  lemma Negated(x: real, y: real)
    ensures -x * y == -(x * y)
  {
  }

  lemma {:induction false} Exp2Adds(i: nat, j: nat)
    ensures Exp2(i + j) == Exp2(i) * Exp2(j)
  {
    if j > 0 {
      Exp2Adds(i, j - 1);
      var x, y := Exp2(i), Exp2(j - 1);
      assert Exp2(i + j) == 2.0 * (x * y) == x * (2.0 * y);
    }
  }

  /** After 62 attempts a positive base delay has grown past every cap, and after 64 a negative one
      is out of range. */
  lemma FarAttempts()
    ensures Exp2(62) == TWO_62 as real && Exp2(64) == (2 * TWO_63) as real
  {
    assert Exp2(4) == 16.0;
    Exp2Adds(4, 4);
    Exp2Adds(8, 8);
    Exp2Adds(16, 16);
    Exp2Adds(32, 32);
    assert Exp2(64) == 2.0 * Exp2(63) == 4.0 * Exp2(62);
  }

  lemma PositiveDelays(p: Policy)
    requires 0 < p.baseDelay <= p.maxDelay
    ensures 1 <= Double(p.baseDelay) <= Double(p.maxDelay) <= TWO_63
    ensures Double(p.maxDelay) == TWO_63 <==> p.maxDelay >= TWO_63 - 512
    ensures Double(p.maxDelay) < TWO_63 ==> Double(p.maxDelay) <= TWO_63 - 1024
  {
    TheTop();
    hide Double;
    DoubleIsMonotone(1, p.baseDelay);
    DoubleIsMonotone(p.baseDelay, p.maxDelay);
    DoubleIsMonotone(p.maxDelay, TWO_63 - 1);
    if p.maxDelay >= TWO_63 - 512 {
      DoubleIsMonotone(TWO_63 - 512, p.maxDelay);
    } else {
      DoubleIsMonotone(p.maxDelay, TWO_63 - 513);
    }
  }

  lemma PositiveSteps(p: Policy, i: nat, j: nat)
    requires 0 < p.baseDelay <= p.maxDelay && i <= j
    ensures 0.0 < Step(p, i) <= Step(p, j) && 2.0 * Step(p, j) <= Double(p.maxDelay) as real
    ensures Step(p, 0) <= Step(p, i)
  {
    PositiveDelays(p);
    GrowthIsOrdered(Double(p.baseDelay), i, j);
    GrowthIsOrdered(Double(p.baseDelay), 0, i);
    hide Double, Grown;
  }

  lemma NegativeGrowth(delay: int)
    requires delay < 0
    ensures Grown(delay, 64) <= -((2 * TWO_63) as real)
  {
    FarAttempts();
    hide Exp2;
    Scaled(Exp2(64), delay as real, -1.0);
  }

  /** A negative base delay leaves the range: no conversion of its later steps can be told. */
  lemma NegativeStepsAreLost(p: Policy)
    requires p.baseDelay < 0 && p.baseDelay <= p.maxDelay
    ensures Step(p, 64) <= -((2 * TWO_63) as real)
  {
    TheTop();
    hide Double, Grown;
    DoubleIsMonotone(p.baseDelay, -1);
    NegativeGrowth(Double(p.baseDelay));
  }

  lemma LeastDouble()
    ensures Double(-TWO_63) >= -TWO_63
  {
    TheTop();
    assert Ulp(TWO_63) == 2048 by {
      assert TwoTo(10) == 1024 && TwoTo(11) == 2048;
      UlpAt(TWO_63, 11);
    }
    hide Ulp;
  }

  lemma Converts(open: real -> int64, x: real)
    requires 0.0 <= x < TWO_63 as real
    ensures ToInt64(open, x) == Truncated(x) >= 0
  {
  }

  /** The policies whose worst case is one. */
  predicate WorstIsWorst(p: Policy) {
    || p.baseDelay == p.maxDelay
    || (p.baseDelay > 0 && (p.maxDelay < TWO_63 - 512 || p.baseDelay >= TWO_63 - 1024))
  }

  lemma WaitStaysBelow(p: Policy, open: real -> int64, attempt: nat, sum: real)
    requires Settled(p) && WorstIsWorst(p) && Drawn(Step(p, attempt), sum)
    ensures WaitFor(p, open, 0, sum) <= WorstCaseWaitFor(p, open, attempt, 0)
  {
    if p.baseDelay < p.maxDelay && sum != 2.0 * Step(p, attempt) {
      PositiveDelays(p);
      PositiveSteps(p, attempt, attempt);
      hide Double, Step, Truncated, ToInt64;
      Converts(open, sum);
      if p.maxDelay < TWO_63 - 512 {
        Converts(open, 2.0 * Step(p, attempt));
        TruncationIsMonotone(sum, 2.0 * Step(p, attempt));
      } else {
        if IsDouble(sum) {
          LastUnderTheTop(sum);
        }
        TruncationIsMonotone(sum, (TWO_63 - 1024) as real);
        TruncatedWhole(TWO_63 - 1024);
      }
    }
  }

  lemma TruncatedWhole(n: int)
    ensures Truncated(n as real) == n
  {
  }

  /** The step of a late attempt when the cap's double is 2^63. */
  lemma CappedStep(p: Policy)
    requires 0 < p.baseDelay <= p.maxDelay && p.maxDelay >= TWO_63 - 512
    ensures Step(p, 62) == TWO_62 as real
  {
    PositiveDelays(p);
    FarAttempts();
    assert Grown(Double(p.baseDelay), 62) >= TWO_62 as real by {
      hide Double, Exp2;
      Scaled(Exp2(62), 1.0, Double(p.baseDelay) as real);
    }
    hide Double, Grown;
  }

  /** Otherwise some draw waits longer than the worst case told. */
  lemma WaitPasses(p: Policy) returns (open: real -> int64, attempt: nat, sum: real)
    requires Settled(p) && !WorstIsWorst(p)
    ensures Drawn(Step(p, attempt), sum)
    ensures WaitFor(p, open, 0, sum) > WorstCaseWaitFor(p, open, attempt, 0)
  {
    if p.baseDelay > 0 {
      CappedStep(p);
      TheTop();
      hide Step, Double;
      open, attempt, sum := x => MIN_INT64, 62, (TWO_63 - 1024) as real;
      TruncatedWhole(TWO_63 - 1024);
      TruncatedWhole(TWO_63);
    } else {
      NegativeStepsAreLost(p);
      hide Step;
      var s := Step(p, 64);
      open, attempt, sum := x => if x == s then p.maxDelay else p.baseDelay, 64, s;
    }
  }

  /** No wait is longer than the worst case if and only if the maximum delay stays under the last
      512 nanoseconds of the range, the base delay is positive, or nothing is left between the two. */
  lemma NoWaitPassesTheWorstIff(policy: Policy)
    ensures NoWaitPassesTheWorst(WithDefaults(policy)) <==> WorstIsWorst(WithDefaults(policy))
  {
    var p := WithDefaults(policy);
    DefaultsSettle(policy);
    hide WithDefaults, Step, ToInt64, Drawn, Double, WorstIsWorst;
    if WorstIsWorst(p) {
      forall open: real -> int64, attempt: nat, retryAfter: int, sum: real | Drawn(Step(p, attempt), sum)
        ensures WaitFor(p, open, retryAfter, sum) <= WorstCaseWaitFor(p, open, attempt, retryAfter)
      {
        WaitStaysBelow(p, open, attempt, sum);
      }
    } else {
      var open, attempt, sum := WaitPasses(p);
      assert Drawn(Step(p, attempt), sum);
    }
  }

  predicate WorstOnlyGrows(p: Policy) {
    || p.baseDelay == p.maxDelay
    || (p.baseDelay > 0 && (p.maxDelay < TWO_63 - 512 || p.baseDelay >= TWO_62 - 256))
  }

  lemma WorstGrows(p: Policy, open: real -> int64, i: nat, j: nat)
    requires Settled(p) && WorstOnlyGrows(p) && i <= j
    ensures WorstCaseWaitFor(p, open, i, 0) <= WorstCaseWaitFor(p, open, j, 0)
  {
    if p.baseDelay < p.maxDelay {
      PositiveDelays(p);
      PositiveSteps(p, i, j);
      hide Double, Step, Truncated, ToInt64;
      if p.maxDelay < TWO_63 - 512 {
        Converts(open, 2.0 * Step(p, i));
        Converts(open, 2.0 * Step(p, j));
        TruncationIsMonotone(2.0 * Step(p, i), 2.0 * Step(p, j));
      } else {
        FirstStepIsCapped(p);
        PositiveSteps(p, 0, i);
        assert Step(p, i) == Step(p, j);
      }
    }
  }

  lemma FirstStepIsCapped(p: Policy)
    requires TWO_62 - 256 <= p.baseDelay <= p.maxDelay && p.maxDelay >= TWO_63 - 512
    ensures Step(p, 0) == TWO_62 as real
  {
    PositiveDelays(p);
    TheTop();
    DoubleIsMonotone(TWO_62 - 256, p.baseDelay);
    GrowthIsOrdered(Double(p.baseDelay), 0, 0);
    hide Double, Grown;
  }

  lemma WorstShrinks(p: Policy) returns (open: real -> int64, i: nat, j: nat)
    requires Settled(p) && !WorstOnlyGrows(p)
    ensures i <= j && WorstCaseWaitFor(p, open, i, 0) > WorstCaseWaitFor(p, open, j, 0)
  {
    if p.baseDelay > 0 {
      CappedStep(p);
      PositiveDelays(p);
      TheTop();
      DoubleIsMonotone(p.baseDelay, TWO_62 - 257);
      DoubleIsNear(p.baseDelay);
      var d := Double(p.baseDelay);
      GrowthIsOrdered(d, 0, 0);
      assert Step(p, 0) == d as real;
      hide Step, Double;
      open, i, j := x => MIN_INT64, 0, 62;
      TruncatedWhole(2 * d);
      TruncatedWhole(TWO_63);
    } else {
      NegativeStepsAreLost(p);
      NegativeStepDoubles(p);
      hide Step;
      var s := 2.0 * Step(p, 64);
      open, i, j := x => if x == s then p.maxDelay else p.baseDelay, 64, 65;
    }
  }

  lemma GrownDoubles(delay: int)
    ensures Grown(delay, 65) == 2.0 * Grown(delay, 64)
  {
    var d, e := delay as real, Exp2(64);
    assert Exp2(65) == 2.0 * e;
    assert d * (2.0 * e) == 2.0 * (d * e);
  }

  lemma NegativeStepDoubles(p: Policy)
    requires p.baseDelay < 0 && p.baseDelay <= p.maxDelay
    ensures Step(p, 65) <= 2.0 * Step(p, 64)
  {
    NegativeStepsAreLost(p);
    DoubleIsMonotone(-TWO_63, p.maxDelay);
    LeastDouble();
    hide Double;
    GrownDoubles(Double(p.baseDelay));
    hide Grown;
  }

  /** The worst case never falls from one attempt to a later one if and only if the maximum delay
      stays under the last 512 nanoseconds of the range, or the first step is already capped. */
  lemma WorstNeverShrinksIff(policy: Policy)
    ensures WorstNeverShrinks(WithDefaults(policy)) <==> WorstOnlyGrows(WithDefaults(policy))
  {
    var p := WithDefaults(policy);
    DefaultsSettle(policy);
    hide WithDefaults, Step, ToInt64, Double, WorstOnlyGrows;
    if WorstOnlyGrows(p) {
      forall open: real -> int64, i: nat, j: nat, retryAfter: int | i <= j
        ensures WorstCaseWaitFor(p, open, i, retryAfter) <= WorstCaseWaitFor(p, open, j, retryAfter)
      {
        WorstGrows(p, open, i, j);
      }
    } else {
      var open, i, j := WorstShrinks(p);
    }
  }

  /** Which is what lets a zero tell the observer that the ladder stopped. */
  lemma NoWaitIsZeroIff(policy: Policy)
    ensures var p := WithDefaults(policy);
      NoWaitIsZero(p) <==> p.baseDelay > 0 || p.maxDelay < 0
  {
    var p := WithDefaults(policy);
    DefaultsSettle(policy);
    hide WithDefaults;
    if p.baseDelay < 0 < p.maxDelay {
      NegativeStepsAreLost(p);
      hide Step, Double;
      var open: real -> int64 := x => 0;
      assert Drawn(Step(p, 64), Step(p, 64));
      assert WaitFor(p, open, 0, Step(p, 64)) == 0;
    }
  }

  /** Every wait lies between the base and the maximum delay, and under the worst case and off zero
      for the policies that allow it. */
  lemma WaitIsBounded(policy: Policy, open: real -> int64, attempt: nat, retryAfter: int, sum: real)
    requires Drawn(Step(WithDefaults(policy), attempt), sum)
    ensures var p, wait := WithDefaults(policy), WaitFor(WithDefaults(policy), open, retryAfter, sum);
      && p.baseDelay <= wait <= p.maxDelay
      && (WorstIsWorst(p) ==> wait <= WorstCaseWaitFor(p, open, attempt, retryAfter))
      && (p.baseDelay > 0 || p.maxDelay < 0 ==> wait != 0)
  {
    DefaultsSettle(policy);
    hide WithDefaults, Step, ToInt64, Drawn, Double, WorstIsWorst;
    NoWaitPassesTheWorstIff(policy);
  }

  // ---------- the Retry-After header ----------

  /** The date form is read by the library: the time until it, if it is a date. */
  function ParseRetryAfter(v: string, untilDate: Option<int>): int {
    if v == "" then 0
    else
      match Atoi(v)
      case Some(secs) => Max(Wrap64(secs * SECOND), 0)
      case None => if untilDate.Some? then Max(untilDate.value, 0) else 0
  }

  /** A number of seconds is honoured as such exactly up to the longest duration, 292 years;
      past it the multiplication wraps. */
  lemma SecondsAreHonouredIff(secs: int, untilDate: Option<int>)
    requires IsInt64(secs)
    ensures ParseRetryAfter(PrintInt(secs), untilDate) == secs * SECOND <==> 0 <= secs <= 9_223_372_036
  {
    IntReadsBack(secs);
    hide Atoi, PrintInt;
  }

  // ---------- what an attempt meets ----------

  datatype Failure = Canceled | DeadlineExceeded | PrivateAddress | BodyTooLarge | BadCertificate | NoSuchHost
    | Transient

  datatype Response = Response(status: int, retryAfter: string, untilDate: Option<int>)

  datatype Outcome = Outcome(resp: Option<Response>, err: Option<Failure>)

  predicate RetryableResult(o: Outcome) {
    if o.err.Some? then o.err.value == Transient
    else
      o.resp.Some? &&
      var status := o.resp.value.status;
      status == 408 || status == 429 || (status >= 500 && status != 501)
  }

  datatype Method = Get | Head | Put | Delete | Options | Trace | OtherMethod

  /** A body without a way to read it again cannot be sent twice. */
  datatype Request = Request(verb: Method, hasBody: bool, hasGetBody: bool)

  predicate Replayable(p: Policy, req: Request) {
    !(req.hasBody && !req.hasGetBody) && (!req.verb.OtherMethod? || p.retryNonIdempotent)
  }

  /** Everything the ladder does not decide, attempt by attempt: what the transport answers and
      how long it takes, the step with its random part, what open conversions give, the time left
      before the deadline when the ladder asks, whether the sleep runs to its end and whether the
      body can be read again. */
  datatype World = World(
    outcome: nat -> Outcome, spent: nat -> int64, sum: nat -> real, open: real -> int64, left: nat -> Option<int64>,
    sleeps: nat -> bool, rewinds: nat -> bool)

  /** The sums are draws of the policy's steps, and no attempt takes less than no time. */
  ghost predicate Lawful(p: Policy, w: World) {
    forall i :: Drawn(Step(p, i), w.sum(i)) && w.spent(i) >= 0
  }

  function Backoff(p: Policy, w: World, i: nat): int {
    var resp := w.outcome(i).resp;
    var retryAfter := if resp.None? then 0 else ParseRetryAfter(resp.value.retryAfter, resp.value.untilDate);
    WaitFor(p, w.open, retryAfter, w.sum(i))
  }

  predicate RetryableAt(w: World, i: nat) {
    RetryableResult(w.outcome(i))
  }

  predicate SleepsAt(w: World, i: nat) {
    w.sleeps(i)
  }

  predicate RewindsAt(w: World, i: nat) {
    w.rewinds(i)
  }

  /** Strictly more time must be left than the wait and another attempt like the last one, as a
      64-bit sum. */
  predicate Affordable(p: Policy, w: World, i: nat) {
    w.left(i).None? || w.left(i).value > Wrap64(Backoff(p, w, i) + w.spent(i))
  }

  // ---------- the ladder ----------

  datatype Event =
    | Called(index: nat)
    | Notified(index: nat, wait: int)
    | Drained(index: nat)
    | Slept(index: nat, wait: int)

  datatype Answer = Nothing | Given(index: nat) | Interrupted(index: nat) | NotRewound(index: nat)

  function Notice(p: Policy, i: nat, wait: int): seq<Event> {
    if p.observed then [Notified(i, wait)] else []
  }

  function Drain(w: World, i: nat): seq<Event> {
    if w.outcome(i).resp.Some? then [Drained(i)] else []
  }

  /** Whether the ladder sleeps after attempt i instead of giving its outcome back. */
  predicate Climbs(p: Policy, w: World, i: nat) {
    RetryableAt(w, i) && i != p.maxAttempts - 1 && Affordable(p, w, i)
  }

  /** What one attempt leaves behind. */
  function Part(p: Policy, w: World, i: nat): seq<Event> {
    if Climbs(p, w, i) then
      [Called(i)] + Notice(p, i, Backoff(p, w, i)) + Drain(w, i) + [Slept(i, Backoff(p, w, i))]
    else if RetryableAt(w, i) then [Called(i)] + Notice(p, i, 0)
    else [Called(i)]
  }

  function Parts(p: Policy, w: World, n: nat): seq<Event> {
    if n == 0 then [] else Parts(p, w, n - 1) + Part(p, w, n - 1)
  }

  /** Whether the ladder goes from attempt i to the next. */
  predicate Passes(p: Policy, w: World, i: nat) {
    Climbs(p, w, i) && SleepsAt(w, i) && RewindsAt(w, i + 1)
  }

  /** The last attempt of a ladder that has reached attempt i. */
  function Last(p: Policy, w: World, i: nat): (last: nat)
    requires i < p.maxAttempts
    ensures i <= last < p.maxAttempts
    ensures forall j :: i <= j < last ==> Passes(p, w, j)
    ensures !Passes(p, w, last)
    decreases p.maxAttempts - i
  {
    if i + 1 < p.maxAttempts && Passes(p, w, i) then Last(p, w, i + 1) else i
  }

  /** What the caller is handed after the last attempt. */
  function AnswerOf(p: Policy, w: World, last: nat): Answer {
    if !Climbs(p, w, last) then Given(last)
    else if !SleepsAt(w, last) then Interrupted(last)
    else NotRewound(last + 1)
  }

  lemma LastMoves(p: Policy, w: World, i: nat)
    requires i < p.maxAttempts
    ensures !Climbs(p, w, i) || !SleepsAt(w, i) || !RewindsAt(w, i + 1) ==> Last(p, w, i) == i
    ensures Climbs(p, w, i) && SleepsAt(w, i) && RewindsAt(w, i + 1) ==>
      i + 1 < p.maxAttempts && Last(p, w, i) == Last(p, w, i + 1)
  {
  }

  lemma PartForms(p: Policy, w: World, i: nat)
    ensures !RetryableAt(w, i) ==> Part(p, w, i) == [Called(i)] && !Climbs(p, w, i)
    ensures RetryableAt(w, i) && !Climbs(p, w, i) ==> Part(p, w, i) == [Called(i)] + Notice(p, i, 0)
    ensures Climbs(p, w, i) ==>
      Part(p, w, i) == [Called(i)] + Notice(p, i, Backoff(p, w, i)) + Drain(w, i) + [Slept(i, Backoff(p, w, i))]
  {
  }

  /** The run of a replayable request. */
  ghost predicate Ran(p: Policy, w: World, log: seq<Event>, answer: Answer) {
    && p.maxAttempts > 0
    && log == Parts(p, w, Last(p, w, 0) + 1)
    && answer == AnswerOf(p, w, Last(p, w, 0))
  }

  function CalledLog(log: seq<Event>, i: nat): seq<Event> {
    log + [Called(i)]
  }

  function NoticedLog(p: Policy, log: seq<Event>, i: nat, wait: int): seq<Event> {
    log + Notice(p, i, wait)
  }

  function DrainedLog(w: World, log: seq<Event>, i: nat): seq<Event> {
    log + Drain(w, i)
  }

  function SleptLog(log: seq<Event>, i: nat, wait: int): seq<Event> {
    log + [Slept(i, wait)]
  }

  function ClimbedLog(p: Policy, w: World, log: seq<Event>, i: nat, wait: int): seq<Event> {
    SleptLog(DrainedLog(w, NoticedLog(p, CalledLog(log, i), i, wait), i), i, wait)
  }

  lemma LogGrows(p: Policy, w: World, i: nat, log: seq<Event>)
    requires log == Parts(p, w, i)
    ensures !RetryableAt(w, i) ==> !Climbs(p, w, i) && Parts(p, w, i + 1) == CalledLog(log, i)
    ensures RetryableAt(w, i) && !Climbs(p, w, i) ==> Parts(p, w, i + 1) == NoticedLog(p, CalledLog(log, i), i, 0)
    ensures Climbs(p, w, i) ==> Parts(p, w, i + 1) == ClimbedLog(p, w, log, i, Backoff(p, w, i))
  {
    hide Backoff, RetryableAt, Part, Notice, Drain;
    PartForms(p, w, i);
    var called, wait := [Called(i)], Backoff(p, w, i);
    assert log + called + Notice(p, i, 0) == log + (called + Notice(p, i, 0));
    assert log + called + Notice(p, i, wait) + Drain(w, i) + [Slept(i, wait)]
        == log + (called + Notice(p, i, wait) + Drain(w, i) + [Slept(i, wait)]);
  }

  /** An attempt that does not climb ends the run. */
  lemma AttemptStays(p: Policy, w: World, i: nat, log: seq<Event>)
    requires i < p.maxAttempts && log == Parts(p, w, i) && Last(p, w, 0) == Last(p, w, i)
    ensures !RetryableAt(w, i) ==> Ran(p, w, CalledLog(log, i), Given(i))
    ensures RetryableAt(w, i) && (i == p.maxAttempts - 1 || !Affordable(p, w, i)) ==>
      Ran(p, w, NoticedLog(p, CalledLog(log, i), i, 0), Given(i))
  {
    LogGrows(p, w, i, log);
    LastMoves(p, w, i);
    hide Backoff, RetryableAt, Affordable, Last, Part, Parts, NoticedLog, CalledLog;
  }

  /** One that climbs ends it only by a cut sleep or a body that cannot be read again. */
  lemma AttemptClimbs(p: Policy, w: World, i: nat, log: seq<Event>)
    requires i < p.maxAttempts && log == Parts(p, w, i) && Last(p, w, 0) == Last(p, w, i)
    requires RetryableAt(w, i) && i != p.maxAttempts - 1 && Affordable(p, w, i)
    ensures !SleepsAt(w, i) ==> Ran(p, w, ClimbedLog(p, w, log, i, Backoff(p, w, i)), Interrupted(i))
    ensures SleepsAt(w, i) && !RewindsAt(w, i + 1) ==>
      Ran(p, w, ClimbedLog(p, w, log, i, Backoff(p, w, i)), NotRewound(i + 1))
    ensures SleepsAt(w, i) && RewindsAt(w, i + 1) ==>
      ClimbedLog(p, w, log, i, Backoff(p, w, i)) == Parts(p, w, i + 1) && Last(p, w, 0) == Last(p, w, i + 1)
  {
    LogGrows(p, w, i, log);
    LastMoves(p, w, i);
    hide Backoff, RetryableAt, Affordable, Last, Part, Parts, Notice, Drain, ClimbedLog, SleepsAt, RewindsAt;
  }

  method RoundTrip(p: Policy, w: World, req: Request) returns (log: seq<Event>, answer: Answer)
    ensures !Replayable(p, req) ==> log == [Called(0)] && answer == Given(0)
    ensures Replayable(p, req) && p.maxAttempts <= 0 ==> log == [] && answer == Nothing
    ensures Replayable(p, req) && p.maxAttempts > 0 ==> Ran(p, w, log, answer)
  {
    if !Replayable(p, req) {
      return [Called(0)], Given(0);
    }
    log, answer := RunAttempts(p, w);
  }

  method RunAttempts(p: Policy, w: World) returns (log: seq<Event>, answer: Answer)
    ensures p.maxAttempts <= 0 ==> log == [] && answer == Nothing
    ensures p.maxAttempts > 0 ==> Ran(p, w, log, answer)
  {
    assert Parts(p, w, 0) == [];
    hide Backoff, RetryableAt, SleepsAt, RewindsAt, Affordable, Last, Parts, CalledLog, NoticedLog, DrainedLog,
      SleptLog, Ran;
    log, answer := [], Nothing;
    var i: nat := 0;
    while i < p.maxAttempts
      invariant i == 0 || i < p.maxAttempts
      invariant p.maxAttempts <= 0 ==> log == [] && answer == Nothing
      invariant i > 0 && !RewindsAt(w, i) ==> Ran(p, w, log, NotRewound(i))
      invariant p.maxAttempts > 0 && (i == 0 || RewindsAt(w, i)) ==>
        log == Parts(p, w, i) && Last(p, w, 0) == Last(p, w, i)
      decreases p.maxAttempts - i
    {
      if i > 0 && !RewindsAt(w, i) {
        return log, NotRewound(i);
      }
      AttemptStays(p, w, i, log);
      ghost var before := log;
      log := CalledLog(log, i);
      answer := Given(i);
      if !RetryableAt(w, i) {
        return;
      }
      if i == p.maxAttempts - 1 {
        log := NoticedLog(p, log, i, 0);
        return;
      }
      var wait := Backoff(p, w, i);
      if !Affordable(p, w, i) {
        log := NoticedLog(p, log, i, 0);
        return;
      }
      AttemptClimbs(p, w, i, before);
      log := NoticedLog(p, log, i, wait);
      log := DrainedLog(w, log, i);
      log := SleptLog(log, i, wait);
      if !SleepsAt(w, i) {
        return log, Interrupted(i);
      }
      i := i + 1;
    }
  }

  // ---------- what every ladder keeps ----------

  function Count(log: seq<Event>, select: Event -> bool): nat {
    if log == [] then 0 else Count(log[..|log| - 1], select) + if select(log[|log| - 1]) then 1 else 0
  }

  lemma {:induction false} CountJoin(a: seq<Event>, b: seq<Event>, select: Event -> bool)
    ensures Count(a + b, select) == Count(a, select) + Count(b, select)
  {
    if b == [] {
      assert a + b == a;
    } else {
      assert (a + b)[..|a + b| - 1] == a + b[..|b| - 1];
      CountJoin(a, b[..|b| - 1], select);
    }
  }

  lemma {:induction false} CountNone(log: seq<Event>, select: Event -> bool)
    requires forall e :: e in log ==> !select(e)
    ensures Count(log, select) == 0
  {
    if log != [] {
      CountNone(log[..|log| - 1], select);
    }
  }

  lemma PartIsOneAttempt(p: Policy, w: World, i: nat, e: Event)
    requires e in Part(p, w, i)
    ensures e.index == i
  {
  }

  /** Events of one attempt are all in its own part. */
  lemma {:induction false} CountInParts(p: Policy, w: World, n: nat, j: nat, select: Event -> bool)
    requires forall e :: select(e) ==> e.index == j
    ensures Count(Parts(p, w, n), select) == if j < n then Count(Part(p, w, j), select) else 0
  {
    hide Part, Count;
    if n == 0 {
      CountNone([], select);
    } else {
      CountInParts(p, w, n - 1, j, select);
      CountJoin(Parts(p, w, n - 1), Part(p, w, n - 1), select);
      if j != n - 1 {
        forall e | e in Part(p, w, n - 1) ensures !select(e) {
          PartIsOneAttempt(p, w, n - 1, e);
        }
        CountNone(Part(p, w, n - 1), select);
      }
    }
  }

  function CallOf(j: nat): Event -> bool { (e: Event) => e == Called(j) }

  function DrainOf(j: nat): Event -> bool { (e: Event) => e == Drained(j) }

  function NoticeOf(j: nat): Event -> bool { (e: Event) => e.Notified? && e.index == j }

  lemma CountSingle(e: Event, select: Event -> bool)
    ensures Count([e], select) == if select(e) then 1 else 0
  {
    assert [e][..0] == [];
  }

  lemma CountPart(p: Policy, w: World, j: nat, select: Event -> bool)
    requires forall e :: select(e) ==> e.index == j
    ensures Count(Part(p, w, j), select) ==
      (if select(Called(j)) then 1 else 0)
      + (if p.observed && RetryableAt(w, j) &&
            select(Notified(j, if Climbs(p, w, j) then Backoff(p, w, j) else 0)) then 1 else 0)
      + (if Climbs(p, w, j) && w.outcome(j).resp.Some? && select(Drained(j)) then 1 else 0)
      + (if Climbs(p, w, j) && select(Slept(j, Backoff(p, w, j))) then 1 else 0)
  {
    hide Climbs, Backoff, RetryableAt, Count;
    assert Count([], select) == 0 by {
      CountNone([], select);
    }
    CountSingle(Called(j), select);
    var wait := if Climbs(p, w, j) then Backoff(p, w, j) else 0;
    CountSingle(Notified(j, wait), select);
    CountSingle(Drained(j), select);
    CountSingle(Slept(j, wait), select);
    CountJoin([Called(j)], Notice(p, j, wait), select);
    CountJoin([Called(j)] + Notice(p, j, wait), Drain(w, j), select);
    CountJoin([Called(j)] + Notice(p, j, wait) + Drain(w, j), [Slept(j, wait)], select);
    ClimbsOnlyWhenRetryable(p, w, j);
  }

  lemma ClimbsOnlyWhenRetryable(p: Policy, w: World, j: nat)
    ensures Climbs(p, w, j) ==> RetryableAt(w, j)
  {
  }

  /** Of the attempts made, only the one whose outcome is handed back does not climb. */
  lemma OnlyTheAnswerStays(p: Policy, w: World, last: nat, j: nat)
    requires p.maxAttempts > 0 && last == Last(p, w, 0) && j <= last
    ensures Climbs(p, w, j) <==> AnswerOf(p, w, last) != Given(j)
  {
    hide Climbs;
    assert j < last ==> Passes(p, w, j);
  }

  /** The transport is called for attempts 0 to the last, once each, and never more often than the
      policy allows. */
  lemma EachAttemptIsCalledOnce(p: Policy, w: World, last: nat, log: seq<Event>, answer: Answer, j: nat)
    requires Ran(p, w, log, answer) && last == Last(p, w, 0)
    ensures Count(log, CallOf(j)) == if j <= last then 1 else 0
    ensures last < p.maxAttempts
  {
    hide Part, Parts, Last, Backoff, RetryableAt, Climbs, Count;
    CountInParts(p, w, last + 1, j, CallOf(j));
    CountPart(p, w, j, CallOf(j));
  }

  /** Every response obtained is drained or handed back, exactly one of the two. */
  lemma EachResponseIsSpentOnce(p: Policy, w: World, last: nat, log: seq<Event>, answer: Answer, j: nat)
    requires Ran(p, w, log, answer) && last == Last(p, w, 0)
    ensures Count(log, DrainOf(j)) + (if answer == Given(j) && w.outcome(j).resp.Some? then 1 else 0)
      == if j <= last && w.outcome(j).resp.Some? then 1 else 0
  {
    hide Part, Parts, Last, Backoff, RetryableAt, Climbs, Count;
    CountInParts(p, w, last + 1, j, DrainOf(j));
    CountPart(p, w, j, DrainOf(j));
    if j <= last {
      OnlyTheAnswerStays(p, w, last, j);
    }
  }

  /** The observer hears once of every retryable result and of nothing else. */
  lemma EachRetryableResultIsNoticedOnce(p: Policy, w: World, last: nat, log: seq<Event>, answer: Answer, j: nat)
    requires Ran(p, w, log, answer) && last == Last(p, w, 0)
    ensures Count(log, NoticeOf(j)) == if p.observed && j <= last && RetryableAt(w, j) then 1 else 0
  {
    hide Part, Parts, Last, Backoff, RetryableAt, Climbs, Count;
    CountInParts(p, w, last + 1, j, NoticeOf(j));
    CountPart(p, w, j, NoticeOf(j));
  }

  lemma {:induction false} EventIsOfAPart(p: Policy, w: World, n: nat, e: Event)
    requires e in Parts(p, w, n)
    ensures e.index < n && e in Part(p, w, e.index)
  {
    hide Part;
    if e in Parts(p, w, n - 1) {
      EventIsOfAPart(p, w, n - 1, e);
    } else {
      PartIsOneAttempt(p, w, n - 1, e);
    }
  }

  /** For every policy whose waits are never zero, a notice with a zero wait is the last attempt's,
      and its outcome is what the caller gets. */
  lemma ZeroWaitMeansTheLast(policy: Policy, w: World, last: nat, log: seq<Event>, answer: Answer, e: Event)
    requires var p := WithDefaults(policy); Ran(p, w, log, answer) && last == Last(p, w, 0) && Lawful(p, w)
    requires e in log && e.Notified?
    ensures e.index == last && answer == Given(last) ==> e.wait == 0
    ensures var p := WithDefaults(policy);
      e.wait == 0 && (p.baseDelay > 0 || p.maxDelay < 0) ==> e.index == last && answer == Given(last)
  {
    var p := WithDefaults(policy);
    EventIsOfAPart(p, w, last + 1, e);
    assert p.baseDelay > 0 || p.maxDelay < 0 ==> Backoff(p, w, e.index) != 0 by {
      NoWaitIsZeroIff(policy);
      hide WithDefaults, WaitFor, Step, Ran, Last;
      assert Drawn(Step(p, e.index), w.sum(e.index));
    }
    hide Backoff, RetryableAt, Step, Last, Parts, WithDefaults, AnswerOf;
    OnlyTheAnswerStays(p, w, last, e.index);
    NoticeTellsTheWait(p, w, e.index, e);
  }

  lemma NoticeTellsTheWait(p: Policy, w: World, i: nat, e: Event)
    requires e in Part(p, w, i) && e.Notified?
    ensures e.wait == if Climbs(p, w, i) then Backoff(p, w, i) else 0
  {
    hide Backoff, Climbs, RetryableAt;
  }

  lemma SleptHavingClimbed(p: Policy, w: World, i: nat, e: Event)
    requires e in Part(p, w, i) && e.Slept?
    ensures Climbs(p, w, i) && e.wait == Backoff(p, w, i)
  {
    hide Backoff, Climbs, RetryableAt;
  }

  lemma ClampedFits(p: Policy, d: int)
    ensures IsInt64(Clamp(p, d))
  {
  }

  /** A sleep that is started leaves more than the last attempt's duration if and only if the wait
      and that duration fit in 64 bits together. */
  lemma SleepsLeaveTimeToTry(p: Policy, w: World, last: nat, log: seq<Event>, answer: Answer, e: Event)
    requires Ran(p, w, log, answer) && last == Last(p, w, 0) && Lawful(p, w)
    requires e in log && e.Slept?
    ensures w.left(e.index).Some? ==>
      (w.left(e.index).value - e.wait > w.spent(e.index) <==> e.wait + w.spent(e.index) <= MAX_INT64)
    ensures RetryableAt(w, e.index) && e.index + 1 < p.maxAttempts
  {
    hide Part, Parts, Last, ToInt64, Drawn, Step, Clamp;
    EventIsOfAPart(p, w, last + 1, e);
    SleptHavingClimbed(p, w, e.index, e);
    BackoffFits(p, w, e.index);
    hide Backoff;
    assert w.spent(e.index) >= 0;
  }

  lemma BackoffFits(p: Policy, w: World, i: nat)
    ensures IsInt64(Backoff(p, w, i))
  {
    var resp := w.outcome(i).resp;
    var retryAfter := if resp.None? then 0 else ParseRetryAfter(resp.value.retryAfter, resp.value.untilDate);
    hide ParseRetryAfter, ToInt64;
    ClampedFits(p, retryAfter);
    ClampedFits(p, ToInt64(w.open, w.sum(i)));
  }

  /** The result was worth another attempt, there was time for it, the sleep ran to its end and the
      body could be read again. */
  ghost predicate GoesOn(p: Policy, w: World, j: nat) {
    && RetryableAt(w, j) && w.sleeps(j) && w.rewinds(j + 1)
    && (w.left(j).Some? ==> w.left(j).value > Wrap64(Backoff(p, w, j) + w.spent(j)))
  }

  lemma PassedMeans(p: Policy, w: World, j: nat)
    requires Passes(p, w, j)
    ensures GoesOn(p, w, j)
  {
    hide Backoff, RetryableAt;
  }

  lemma AnswerMeans(p: Policy, w: World, last: nat)
    requires last < p.maxAttempts && !Passes(p, w, last)
    ensures var answer := AnswerOf(p, w, last);
      && !answer.Nothing?
      && (answer.Given? ==>
            && answer.index == last
            && (RetryableAt(w, last) && last + 1 < p.maxAttempts ==>
                  w.left(last).Some? && w.left(last).value <= Wrap64(Backoff(p, w, last) + w.spent(last))))
      && (answer.Interrupted? ==> answer.index == last && !w.sleeps(last))
      && (answer.NotRewound? ==> answer.index == last + 1 && w.sleeps(last) && !w.rewinds(last + 1))
  {
    hide Backoff, RetryableAt;
  }

  /** The ladder gives up on a retryable result only when the attempts or the time have run out. */
  lemma StopsOnlyWhenItMust(p: Policy, w: World, last: nat, log: seq<Event>, answer: Answer)
    requires Ran(p, w, log, answer) && last == Last(p, w, 0)
    ensures answer.Given? ==>
      && answer.index == last
      && (RetryableAt(w, last) && last + 1 < p.maxAttempts ==>
            w.left(last).Some? && w.left(last).value <= Wrap64(Backoff(p, w, last) + w.spent(last)))
    ensures answer.Interrupted? ==> answer.index == last && !w.sleeps(last)
    ensures answer.NotRewound? ==> answer.index == last + 1 && w.sleeps(last) && !w.rewinds(last + 1)
    ensures !answer.Nothing?
    ensures forall j :: 0 <= j < last ==> GoesOn(p, w, j)
  {
    AnswerMeans(p, w, last);
    forall j | 0 <= j < last ensures GoesOn(p, w, j) {
      PassedMeans(p, w, j);
    }
    hide Backoff, RetryableAt, AnswerOf, Parts, Passes, GoesOn;
  }
}
