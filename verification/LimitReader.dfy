/** The response body limiter: it lets a body of at most `limit` bytes through and cuts a longer
    one off one byte past the limit. */
module LimitReader {
  import opened Basics
  import opened Decimal

  newtype byte = x: int | 0 <= x < 256

  datatype Failure = EndOfFile | Broken(reason: string)

  datatype ReadError = TooLarge(limit: int) | OfBody(failure: Failure)

  datatype Answer = Answer(bytes: seq<byte>, err: Option<ReadError>)

  /** Slicing a buffer past its bounds panics. */
  datatype Outcome = Panicked | Read(answer: Answer)

  /** One call: the room in the caller's buffer, and what the body does when asked: how many bytes
      it is ready to give and the error it reports beside them. */
  datatype Call = Call(room: nat, ready: nat, failure: Option<Failure>)

  /** The body itself: it gives the next bytes, never more than the room. */
  function Given(rest: seq<byte>, c: Call): (n: nat)
    ensures n <= |rest| && n <= c.room
  {
    Min(c.ready, Min(c.room, |rest|))
  }

  function BodyError(c: Call): Option<ReadError> {
    if c.failure.Some? then Some(OfBody(c.failure.value)) else None
  }

  function BodyAnswer(rest: seq<byte>, c: Call): Answer {
    Answer(rest[..Given(rest, c)], BodyError(c))
  }

  class Body {
    var rest: seq<byte>

    constructor (bytes: seq<byte>)
      ensures rest == bytes
    {
      rest := bytes;
    }

    method Read(c: Call) returns (n: nat, answer: Answer)
      modifies this
      ensures answer == BodyAnswer(old(rest), c)
      ensures rest == old(rest)[|answer.bytes|..] && n == |answer.bytes|
    {
      n := Given(rest, c);
      answer := BodyAnswer(rest, c);
      rest := rest[n..];
    }
  }

  // ---------- the limiter ----------

  /** What is left of the body, how much of it may still pass, and the limit to report. */
  datatype State = State(rest: seq<byte>, remaining: int, limit: int)

  function Start(body: seq<byte>, limit: int): State {
    State(body, limit, limit)
  }

  /** One call, and the state after it. */
  function Step(st: State, c: Call): (State, Outcome) {
    if st.remaining < 0 then (st, Read(Answer([], Some(TooLarge(st.limit)))))
    else
      var room := if c.room > Wrap64(st.remaining + 1) then Wrap64(st.remaining + 1) else c.room;
      if room < 0 then (st, Panicked)
      else
        var answer := BodyAnswer(st.rest, c.(room := room));
        var left := st.remaining - |answer.bytes|;
        (State(st.rest[|answer.bytes|..], left, st.limit),
         Read(if left < 0 then answer.(err := Some(TooLarge(st.limit))) else answer))
  }

  class Reader {
    const body: Body
    var remaining: int
    const limit: int

    constructor (body: Body, limit: int)
      ensures this.body == body && Abstract() == Start(body.rest, limit)
    {
      this.body, this.remaining, this.limit := body, limit, limit;
    }

    ghost function Abstract(): State
      reads this, body
    {
      State(body.rest, remaining, limit)
    }

    method Read(c: Call) returns (outcome: Outcome)
      requires IsInt64(remaining)
      modifies this, body
      ensures (Abstract(), outcome) == Step(old(Abstract()), c)
    {
      if remaining < 0 {
        return Outcome.Read(Answer([], Some(TooLarge(limit))));
      }
      var room: int := c.room;
      if room > Wrap64(remaining + 1) {
        room := Wrap64(remaining + 1);
      }
      if room < 0 {
        return Panicked;
      }
      var n, answer := body.Read(c.(room := room));
      remaining := remaining - n;
      if remaining < 0 {
        return Outcome.Read(Answer(answer.bytes, Some(TooLarge(limit))));
      }
      return Outcome.Read(answer);
    }
  }

  // ---------- whole reads ----------

  function After(st: State, calls: seq<Call>): State {
    if calls == [] then st else Step(After(st, calls[..|calls| - 1]), calls[|calls| - 1]).0
  }

  /** What call k of a run answers. */
  function AnswerAt(st: State, calls: seq<Call>, k: nat): Outcome
    requires k < |calls|
  {
    Step(After(st, calls[..k]), calls[k]).1
  }

  function Bytes(o: Outcome): seq<byte> {
    if o.Panicked? then [] else o.answer.bytes
  }

  /** Everything handed out so far. */
  function Yielded(st: State, calls: seq<Call>): seq<byte> {
    if calls == [] then [] else Yielded(st, calls[..|calls| - 1]) + Bytes(AnswerAt(st, calls, |calls| - 1))
  }

  /** What was handed out is the start of the body, what is left is the rest, and the allowance is
      what the limit leaves, one below zero at the least. */
  lemma {:induction false} ReadsInOrder(body: seq<byte>, limit: int, calls: seq<Call>)
    requires 0 <= limit < MAX_INT64
    ensures var st, y := After(Start(body, limit), calls), Yielded(Start(body, limit), calls);
      body == y + st.rest && st.remaining == limit - |y| && st.limit == limit && |y| <= limit + 1
  {
    hide Step, Bytes;
    if calls == [] {
      assert body == [] + body;
    } else {
      var before := calls[..|calls| - 1];
      ReadsInOrder(body, limit, before);
      StepReadsInOrder(After(Start(body, limit), before), calls[|calls| - 1]);
    }
  }

  lemma StepReadsInOrder(st: State, c: Call)
    requires -1 <= st.remaining < MAX_INT64
    ensures var (next, o) := Step(st, c);
      && o.Read? && st.rest == Bytes(o) + next.rest
      && next.remaining == st.remaining - |Bytes(o)| >= -1 && next.limit == st.limit
      && (o.answer.err == Some(TooLarge(st.limit)) <==> next.remaining < 0)
  {
  }

  /** Never more than one byte past the limit; and the error is there exactly on the calls that
      leave more than the limit handed out. */
  lemma TooLargeExactlyPastTheLimit(body: seq<byte>, limit: int, calls: seq<Call>, k: nat)
    requires 0 <= limit < MAX_INT64 && k < |calls|
    ensures var start := Start(body, limit);
      && AnswerAt(start, calls, k).Read?
      && |Yielded(start, calls[..k + 1])| <= limit + 1
      && (AnswerAt(start, calls, k).answer.err == Some(TooLarge(limit)) <==> |Yielded(start, calls[..k + 1])| > limit)
  {
    var start, upTo := Start(body, limit), calls[..k + 1];
    assert upTo[..k] == calls[..k] && upTo[k] == calls[k];
    ReadsInOrder(body, limit, calls[..k]);
    ReadsInOrder(body, limit, upTo);
    StepReadsInOrder(After(start, calls[..k]), calls[k]);
  }

  /** The body read without a limiter: what is left after some calls. */
  function BodyAfter(body: seq<byte>, calls: seq<Call>): seq<byte> {
    if calls == [] then body
    else
      var rest := BodyAfter(body, calls[..|calls| - 1]);
      rest[Given(rest, calls[|calls| - 1])..]
  }

  /** With the whole rest allowed, the shortened room still holds all of it. */
  lemma StepIsTheBodys(st: State, c: Call)
    requires |st.rest| <= st.remaining < MAX_INT64
    ensures var n := Given(st.rest, c);
      Step(st, c) == (State(st.rest[n..], st.remaining - n, st.limit), Read(BodyAnswer(st.rest, c)))
  {
    var room := if c.room > st.remaining + 1 then st.remaining + 1 else c.room;
    assert Wrap64(st.remaining + 1) == st.remaining + 1 by {
      WrapTells(st.remaining + 1);
    }
    hide Wrap64;
    assert Given(st.rest, c.(room := room)) == Given(st.rest, c);
    assert BodyAnswer(st.rest, c.(room := room)) == BodyAnswer(st.rest, c);
    hide BodyAnswer, Given;
    assert |BodyAnswer(st.rest, c).bytes| == Given(st.rest, c) by {
      AnswerLength(st.rest, c);
    }
  }

  lemma AnswerLength(rest: seq<byte>, c: Call)
    ensures |BodyAnswer(rest, c).bytes| == Given(rest, c) <= |rest|
  {
  }

  lemma {:induction false} ShortBodyLeft(body: seq<byte>, limit: int, calls: seq<Call>)
    requires |body| <= limit < MAX_INT64
    ensures var st := After(Start(body, limit), calls);
      st.rest == BodyAfter(body, calls) && st.remaining - |st.rest| == limit - |body| && st.remaining <= limit
  {
    hide Step, Given;
    if calls != [] {
      var before, c := calls[..|calls| - 1], calls[|calls| - 1];
      ShortBodyLeft(body, limit, before);
      StepIsTheBodys(After(Start(body, limit), before), c);
    }
  }

  /** A body within the limit is read as if the limiter were not there: every call answers what the
      bare body would, errors included. */
  lemma ShortBodyIsUntouched(body: seq<byte>, limit: int, calls: seq<Call>, k: nat)
    requires |body| <= limit < MAX_INT64 && k < |calls|
    ensures AnswerAt(Start(body, limit), calls, k) == Read(BodyAnswer(BodyAfter(body, calls[..k]), calls[k]))
  {
    hide Step, Given;
    ShortBodyLeft(body, limit, calls[..k]);
    StepIsTheBodys(After(Start(body, limit), calls[..k]), calls[k]);
  }

  /** A body past the limit is never read to its end without the error. */
  lemma LongBodyIsReported(body: seq<byte>, limit: int, calls: seq<Call>)
    requires 0 <= limit < MAX_INT64 && limit < |body|
    requires After(Start(body, limit), calls).rest == []
    ensures calls != [] && AnswerAt(Start(body, limit), calls, |calls| - 1).Read?
    ensures AnswerAt(Start(body, limit), calls, |calls| - 1).answer.err == Some(TooLarge(limit))
  {
    ReadsInOrder(body, limit, calls);
    assert calls[..|calls|] == calls;
    TooLargeExactlyPastTheLimit(body, limit, calls, |calls| - 1);
  }

  /** The allowance plus one wraps at the largest limit, and only there: then every call panics. */
  lemma PanicsIff(body: seq<byte>, limit: int, calls: seq<Call>, k: nat)
    requires 0 <= limit <= MAX_INT64 && k < |calls|
    ensures AnswerAt(Start(body, limit), calls, k).Panicked? <==> limit == MAX_INT64
  {
    hide Step;
    if limit == MAX_INT64 {
      PanicChangesNothing(body, calls[..k]);
      FullAllowancePanics(Start(body, limit), calls[k]);
    } else {
      TooLargeExactlyPastTheLimit(body, limit, calls, k);
    }
  }

  lemma FullAllowancePanics(st: State, c: Call)
    requires st.remaining == MAX_INT64
    ensures Step(st, c) == (st, Panicked)
  {
  }

  lemma {:induction false} PanicChangesNothing(body: seq<byte>, calls: seq<Call>)
    ensures After(Start(body, MAX_INT64), calls) == Start(body, MAX_INT64)
  {
    hide Step;
    if calls != [] {
      PanicChangesNothing(body, calls[..|calls| - 1]);
      FullAllowancePanics(Start(body, MAX_INT64), calls[|calls| - 1]);
    }
  }

  // ---------- one call ----------

  /** A call in plain: with nothing left to allow it only reports the limit; otherwise it gives the
      next bytes, as many as the body is ready to give, fit the room and are one past the allowance
      at most, and the body's own error unless they pass the allowance. */
  lemma StepTells(st: State, c: Call)
    requires st.remaining < MAX_INT64
    ensures var (after, outcome) := Step(st, c);
      if st.remaining < 0 then after == st && outcome == Read(Answer([], Some(TooLarge(st.limit))))
      else
        exists n: nat ::
          && n <= c.ready && n <= c.room && n <= |st.rest| && n <= st.remaining + 1
          && (n == c.ready || n == c.room || n == |st.rest| || n == st.remaining + 1)
          && after == State(st.rest[n..], st.remaining - n, st.limit)
          && outcome == Read(Answer(st.rest[..n],
               if n > st.remaining then Some(TooLarge(st.limit))
               else if c.failure.Some? then Some(OfBody(c.failure.value)) else None))
  {
    if st.remaining >= 0 {
      var room := if c.room > st.remaining + 1 then st.remaining + 1 else c.room;
      var n := Given(st.rest, c.(room := room));
      assert |st.rest[..n]| == n;
    }
  }
}
